/** Over runs: which stays have an invoice at all, and whether it charges the nights they have. */
module StayCharges {
  import opened Prelude
  import opened Schema
  import opened Reservations
  import opened Billing
  import opened LodgeSteps
  import opened BookingRuns
  import opened BillingRuns
  import opened BillingTheorems
  import opened BillAccuracy
  import opened Runs

  // ---------- every settled stay has an invoice ----------

  /** Confirmed or later, and not cancelled. */
  predicate Settled(s: Status) { s == Confirmed || s == CheckedIn || s == CheckedOut }

  predicate SettledAlone(bs: Bookings, i: Id) { i in bs && bs[i].company.None? && Settled(bs[i].status) }

  ghost predicate Invoiced(db: Db) { forall i | SettledAlone(db.bookings, i) :: OwnInvoiced(db, Some(i)) }

  /** An individual stay is confirmed and no invoice comes of it. */
  predicate LeavesUninvoiced(db: Db, op: Op) {
    match op
    case UpdateStatus(org, id, to, _, f) =>
      && Unwritten(StatusError(db.bookings, org, id, to), f.write).None? && to == Confirmed
      && db.bookings[id].company.None? && !OwnInvoiced(db, Some(id)) && (0 in f.invoice.unread || f.invoice.lost)
    case WorkflowOutcome(org, id, approved) =>
      approved && InOrg(db.bookings, org, id) && db.bookings[id].company.None? && !OwnInvoiced(db, Some(id))
    case _ => false
  }

  lemma FoundIffInvoiced(db: Db, org: Id, id: Id)
    requires Books(db) && InOrg(db.bookings, org, id)
    ensures FindOwn(db.invoices, id, org).Some? <==> OwnInvoiced(db, Some(id))
  {
    if FindOwn(db.invoices, id, org).None? {
      forall k | 0 <= k < |db.invoices| ensures db.invoices[k].booking != Some(id) { NotInvoicedYet(db, org, id, k); }
    }
  }

  lemma FaithfulKeepsInvoices(db: Db, after: Db, booking: Option<Id>)
    requires Faithful(db, after) && OwnInvoiced(db, booking)
    ensures OwnInvoiced(after, booking)
  {
    var k :| 0 <= k < |db.invoices| && db.invoices[k].booking == booking;
    assert Steady(db, after, db.invoices[k], after.invoices[k]);
  }

  lemma ArrivalKeepsInvoices(db: Db, after: Db, to: Option<Id>, its: seq<Item>, billed: seq<Item>, booking: Option<Id>)
    requires Arrives(db, after, to, its, billed) && OwnInvoiced(db, booking)
    ensures OwnInvoiced(after, booking)
  {
    var k :| 0 <= k < |db.invoices| && db.invoices[k].booking == booking;
    assert Extended(db.invoices[k], after.invoices[k], to, billed);
  }

  lemma RemovalKeepsInvoices(db: Db, org: Id, order: nat, item: Id, booking: Option<Id>)
    requires Books(db) && OwnInvoiced(db, booking)
    ensures OwnInvoiced(AfterRemove(db, org, order, item), booking)
  {
    if RemoveError(db, org, order, item).None? {
      forall k | 0 <= k < |db.invoices| ensures Balanced(db.invoices[k]) { assert InvoiceOk(db, db.invoices[k]); }
      RemovalOnlyOrphans(db, org, order, item);
      var k :| 0 <= k < |db.invoices| && db.invoices[k].booking == booking;
      assert WithoutItem(db, item).invoices[k].booking == booking;
    }
  }

  lemma PlaceKeepsInvoices(db: Db, org: Id, b: Id, qs: seq<ItemRequest>, today: int, f: OrderFaults,
                           booking: Option<Id>)
    requires Books(db) && OwnInvoiced(db, booking)
    ensures OwnInvoiced(AfterPlace(db, org, b, qs, today, f), booking)
  {
    if PlaceOrderError(db, org, b, qs, f).None? {
      PlaceArrives(db, org, b, qs, today, f);
      var its := NewItems(db.menu, org, |db.orders|, db.next, qs, |qs|);
      ArrivalKeepsInvoices(db, AfterPlace(db, org, b, qs, today, f), Some(b), its, Reached(its, f), booking);
    }
  }

  lemma AddKeepsInvoices(db: Db, org: Id, order: nat, qs: seq<ItemRequest>, f: OrderFaults, booking: Option<Id>)
    requires Books(db) && OwnInvoiced(db, booking)
    ensures OwnInvoiced(AfterAdd(db, org, order, qs, f), booking)
  {
    if AddError(db, org, order, qs, f).None? {
      AddArrives(db, org, order, qs, f);
      var its := NewItems(db.menu, org, order, db.next, qs, |qs|);
      ArrivalKeepsInvoices(db, AfterAdd(db, org, order, qs, f), db.orders[order].booking,
        its, Reached(its, f), booking);
    }
  }

  lemma OrderKeepsInvoices(db: Db, op: Op, booking: Option<Id>)
    requires Books(db) && OwnInvoiced(db, booking) && !BillsNothing(op)
    ensures OwnInvoiced(Step(db, op), booking)
  {
    if op.PlaceOrder? {
      PlaceKeepsInvoices(db, op.org, op.booking, op.wanted, op.today, op.of, booking);
    } else if op.AddItems? {
      AddKeepsInvoices(db, op.org, op.order, op.wanted, op.of, booking);
    } else {
      RemovalKeepsInvoices(db, op.org, op.order, op.item, booking);
    }
  }

  /** No call takes a booking's invoice away. */
  lemma InvoicesStay(db: Db, op: Op, booking: Option<Id>)
    requires Books(db) && OwnInvoiced(db, booking)
    ensures OwnInvoiced(Step(db, op), booking)
  {
    if BillsNothing(op) {
      StepIsFaithful(db, op);
      FaithfulKeepsInvoices(db, Step(db, op), booking);
    } else {
      OrderKeepsInvoices(db, op, booking);
    }
  }

  ghost predicate NothingSettles(before: Bookings, after: Bookings) {
    forall i | SettledAlone(after, i) :: SettledAlone(before, i)
  }

  lemma BatchSettlesNothing(db: Db, org: Id, q: BatchRequest, year: nat, f: BatchFaults, g: InvoiceFaults)
    requires Numbered(db)
    ensures NothingSettles(db.bookings, AfterCorporate(db, org, q, year, f, g).bookings)
  {
    BatchBookings(db, org, q, year, f, g);
    var ids := BatchIds(db, org, q);
    BatchAddsExactlyItsGuests(WithCompany(db, org, q.company), org, ClientId(db, q.company), q.guests, |q.guests|);
    var batch := WithBatch(db, org, q).bookings;
    forall i | SettledAlone(batch, i) ensures SettledAlone(db.bookings, i) {
      assert i in db.bookings || i in (set x | x in ids);
    }
  }

  lemma IndividualSettlesNothing(db: Db, org: Id, q: StayRequest, f: StayFaults)
    ensures NothingSettles(db.bookings, AfterIndividual(db, org, q, f).bookings)
  {}

  lemma GuestSettlesNothing(db: Db, profile: Option<Id>, q: StayRequest, f: GuestFaults)
    ensures NothingSettles(db.bookings, AfterGuest(db, profile, q, f).bookings)
  {}

  lemma UpdateSettlesNothing(db: Db, org: Id, id: Id, e: Edit, today: int, f: EditFaults)
    ensures NothingSettles(db.bookings, AfterUpdate(db, org, id, e, today, f).bookings)
  {
    var after := AfterUpdate(db, org, id, e, today, f).bookings;
    assert after == db.bookings || (id in db.bookings && after == db.bookings[id := Edited(db.bookings[id], e)]);
  }

  lemma RestSettlesNothing(db: Db, op: Op)
    requires op.GuestCancel? || op.DeleteBooking? || op.OverdueJob?
    ensures NothingSettles(db.bookings, Step(db, op).bookings)
  {}

  lemma OthersSettleNothing(db: Db, op: Op)
    requires Numbered(db) && !op.UpdateStatus? && !op.WorkflowOutcome?
    ensures NothingSettles(db.bookings, Step(db, op).bookings)
  {
    if OrderOp(op) {
      OrdersLeaveBookingsAlone(db, op);
    } else {
      match op {
        case CreateIndividual(org, q, f) => IndividualSettlesNothing(db, org, q, f);
        case GuestCreate(profile, q, f) => GuestSettlesNothing(db, profile, q, f);
        case CreateCorporate(org, batch, year, f, g) => BatchSettlesNothing(db, org, batch, year, f, g);
        case UpdateBooking(org, id, e, today, f) => UpdateSettlesNothing(db, org, id, e, today, f);
        case _ => RestSettlesNothing(db, op);
      }
    }
  }

  /** The confirmed stay itself. */
  lemma ConfirmedInvoicedIff(db: Db, org: Id, id: Id, year: nat, f: StatusFaults)
    requires Books(db) && Unwritten(StatusError(db.bookings, org, id, Confirmed), f.write).None?
    requires db.bookings[id].company.None?
    ensures OwnInvoiced(AfterStatus(db, org, id, Confirmed, year, f), Some(id))
      <==> !LeavesUninvoiced(db, UpdateStatus(org, id, Confirmed, year, f))
  {
    var stored := db.(bookings := Restated(db.bookings, id, Confirmed));
    var after := AfterGenerate(stored, org, id, year, f.invoice);
    RestatedKeepsBooks(db, org, id, Confirmed);
    GenerateIsOneOrNone(stored, org, id, year, f.invoice);
    GenerateKeepsBooks(stored, org, id, year, f.invoice);
    FoundIffInvoiced(stored, org, id);
    FoundIffInvoiced(after, org, id);
    assert OwnInvoiced(stored, Some(id)) <==> OwnInvoiced(db, Some(id));
  }

  lemma StatusBookings(db: Db, org: Id, id: Id, to: Status, year: nat, f: StatusFaults)
    requires Unwritten(StatusError(db.bookings, org, id, to), f.write).None?
    ensures AfterStatus(db, org, id, to, year, f).bookings == Restated(db.bookings, id, to)
  {}

  lemma SettledBefore(db: Db, org: Id, id: Id, to: Status, i: Id)
    requires StatusError(db.bookings, org, id, to).None?
    requires SettledAlone(Restated(db.bookings, id, to), i) && (i != id || to != Confirmed)
    ensures SettledAlone(db.bookings, i)
  {}

  /** The stays a status change does not confirm. */
  lemma OthersStayInvoiced(db: Db, org: Id, id: Id, to: Status, year: nat, f: StatusFaults, i: Id)
    requires Books(db) && Invoiced(db) && Unwritten(StatusError(db.bookings, org, id, to), f.write).None?
    requires SettledAlone(Restated(db.bookings, id, to), i) && (i != id || to != Confirmed)
    ensures OwnInvoiced(AfterStatus(db, org, id, to, year, f), Some(i))
  {
    SettledBefore(db, org, id, to, i);
    StatusIsFaithful(db, org, id, to, year, f);
    FaithfulKeepsInvoices(db, AfterStatus(db, org, id, to, year, f), Some(i));
  }

  lemma StatusInvoicesIff(db: Db, org: Id, id: Id, to: Status, year: nat, f: StatusFaults)
    requires Books(db) && Invoiced(db)
    ensures Invoiced(AfterStatus(db, org, id, to, year, f)) <==>
      !LeavesUninvoiced(db, UpdateStatus(org, id, to, year, f))
  {
    var after := AfterStatus(db, org, id, to, year, f);
    if Unwritten(StatusError(db.bookings, org, id, to), f.write).None? {
      StatusBookings(db, org, id, to, year, f);
      forall i | SettledAlone(after.bookings, i) && (i != id || to != Confirmed) ensures OwnInvoiced(after, Some(i)) {
        OthersStayInvoiced(db, org, id, to, year, f, i);
      }
      if to == Confirmed && db.bookings[id].company.None? {
        ConfirmedInvoicedIff(db, org, id, year, f);
        assert SettledAlone(after.bookings, id);
      }
    }
  }

  lemma OutcomeInvoicesIff(db: Db, org: Id, id: Id, approved: bool)
    requires Invoiced(db)
    ensures Invoiced(db.(bookings := OutcomeApplied(db.bookings, org, id, approved)))
      <==> !LeavesUninvoiced(db, WorkflowOutcome(org, id, approved))
  {
    var after := db.(bookings := OutcomeApplied(db.bookings, org, id, approved));
    forall i | SettledAlone(after.bookings, i) && i != id ensures OwnInvoiced(after, Some(i)) {
      assert SettledAlone(db.bookings, i);
    }
    if LeavesUninvoiced(db, WorkflowOutcome(org, id, approved)) { assert SettledAlone(after.bookings, id); }
  }

  lemma StepInvoicesIff(db: Db, op: Op)
    requires Books(db) && Invoiced(db)
    ensures Invoiced(Step(db, op)) <==> !LeavesUninvoiced(db, op)
  {
    match op
    case UpdateStatus(org, id, to, year, f) => StatusInvoicesIff(db, org, id, to, year, f);
    case WorkflowOutcome(org, id, approved) => OutcomeInvoicesIff(db, org, id, approved);
    case _ =>
      OthersSettleNothing(db, op);
      forall i | SettledAlone(Step(db, op).bookings, i) ensures OwnInvoiced(Step(db, op), Some(i)) {
        InvoicesStay(db, op, Some(i));
      }
  }

  /** Over every run: every individual stay that is confirmed, checked in or checked out has its own
      invoice at every moment, if and only if no workflow ever approves a stay that has none and no
      invoice fails to be made. */
  lemma InvoicedOverRuns(db: Db, ops: seq<Op>)
    requires Books(db) && Invoiced(db)
    ensures GoodThroughout(Step, db, ops, (s: Db) => Invoiced(s), |ops|)
      <==> SafeThroughout(Step, db, ops, (s, o) => !LeavesUninvoiced(s, o), |ops|)
  {
    forall s, o | Books(s) ensures Books(Step(s, o)) && (Invoiced(s) ==>
      (Invoiced(Step(s, o)) <==> !LeavesUninvoiced(s, o))) {
      StepKeepsBooks(s, o);
      if Invoiced(s) { StepInvoicesIff(s, o); }
    }
    GoodIffSafe(Step, db, ops, s => Books(s), (s: Db) => Invoiced(s), (s, o) => !LeavesUninvoiced(s, o), |ops|);
  }

  /** A stay that waits for approval, and a dinner at 25.00 on the menu. */
  function Waiting(): Db { Lodging(map[3 := OneNighter(5, 100, 103, Pending)]).(menu := map[9 := MenuItem(1, 2500)]) }

  lemma WaitingIsInOrder()
    ensures Books(Waiting()) && Invoiced(Waiting())
  {}

  /** The smallest case: a stay the workflow approves has no invoice, and the dinner ordered on it,
      nothing failing, is billed nowhere. */
  lemma ApprovedStayIsNotBilled()
    ensures var approved := Step(Waiting(), WorkflowOutcome(1, 3, true));
      && Books(Waiting()) && Invoiced(Waiting()) && approved.bookings[3].status == Confirmed
      && PlaceOrderError(approved, 1, 3, [ItemRequest(9, 1)], FAULTLESS).None?
      && AfterPlace(approved, 1, 3, [ItemRequest(9, 1)], 100, FAULTLESS).invoices == []
  {
    WaitingIsInOrder();
    var approved := Step(Waiting(), WorkflowOutcome(1, 3, true));
    assert approved == Waiting().(bookings := Restated(Waiting().bookings, 3, Confirmed));
    assert ItemsError(approved.menu, 1, [ItemRequest(9, 1)], 0).None?;
  }

  // ---------- every own invoice charges the nights of its stay ----------

  function Owed(db: Db, b: Id): nat {
    if b in db.bookings && db.bookings[b].room in db.rooms
    then Nights(db.bookings[b]) * db.rooms[db.bookings[b].room].price else 0
  }

  ghost predicate ChargedAt(db: Db, inv: Invoice) {
    inv.booking.Some? ==> RoomCharge(inv) == Owed(db, inv.booking.value)
  }

  ghost predicate Charged(db: Db) { forall k | 0 <= k < |db.invoices| :: ChargedAt(db, db.invoices[k]) }

  ghost predicate AllStorable(bs: Bookings) { forall i | i in bs :: Storable(bs[i]) }

  predicate Priced(db: Db, i: Id) {
    i in db.bookings && db.bookings[i].room in db.rooms && db.rooms[db.bookings[i].room].price > 0
  }

  /** A stay with an invoice and a priced room gets other nights, and the invoice is not repriced. */
  predicate LeavesMispriced(db: Db, op: Op) {
    match op
    case UpdateBooking(org, id, e, _, f) =>
      && Unwritten(UpdateError(db.bookings, org, id, e), f.write).None? && f.recharge
      && OwnInvoiced(db, Some(id)) && Priced(db, id) && Nights(Edited(db.bookings[id], e)) != Nights(db.bookings[id])
    case OverdueJob(orgs, today, faults) =>
      exists i | i in Overdue(db.bookings, orgs, today) - faults.extend :: OwnInvoiced(db, Some(i)) && Priced(db, i)
    case _ => false
  }

  /** The rows of `before` still name the same room and nights. */
  ghost predicate StaysKept(before: Bookings, after: Bookings) {
    forall i | i in before :: i in after && after[i].room == before[i].room
      && after[i].checkIn == before[i].checkIn && after[i].checkOut == before[i].checkOut
  }

  ghost predicate ChargeKept(inv: Invoice, now: Invoice) {
    now.booking == inv.booking && (inv.booking.Some? ==> RoomCharge(now) == RoomCharge(inv))
  }

  ghost predicate ChargesKept(db: Db, after: Db) {
    && |db.invoices| <= |after.invoices|
    && (forall k | 0 <= k < |db.invoices| :: ChargeKept(db.invoices[k], after.invoices[k]))
    && (forall k | |db.invoices| <= k < |after.invoices| :: ChargedAt(after, after.invoices[k]))
  }

  lemma KeptStaysCharged(db: Db, after: Db)
    requires Books(db) && Charged(db) && ChargesKept(db, after) && after.rooms == db.rooms
    requires StaysKept(db.bookings, after.bookings)
    ensures Charged(after)
  {
    forall k | 0 <= k < |db.invoices| ensures ChargedAt(after, after.invoices[k]) {
      assert InvoiceOk(db, db.invoices[k]) && ChargedAt(db, db.invoices[k])
        && ChargeKept(db.invoices[k], after.invoices[k]);
    }
  }

  lemma SameLinesKeepCharges(db: Db, after: Db)
    requires SameLines(db.invoices, after.invoices)
    ensures ChargesKept(db, after)
  {}

  lemma CompanyCharged(db: Db, org: Id, company: Id, ids: seq<Id>, year: nat, f: InvoiceFaults)
    requires Books(db) && Charged(db)
    ensures Charged(AfterGenerateCompany(db, org, company, ids, year, f))
  {
    KeptStaysCharged(db, AfterGenerateCompany(db, org, company, ids, year, f));
  }

  lemma BatchCharged(db: Db, org: Id, q: BatchRequest, year: nat, f: BatchFaults, g: InvoiceFaults)
    requires Books(db) && Charged(db)
    ensures Charged(AfterCorporate(db, org, q, year, f, g))
  {
    if BatchError(db, org, q, f).None? {
      var batch := WithBatch(db, org, q);
      BatchExtends(db, org, q);
      BatchAddsExactlyItsGuests(WithCompany(db, org, q.company), org, ClientId(db, q.company), q.guests, |q.guests|);
      SameLinesKeepCharges(db, batch);
      KeptStaysCharged(db, batch);
      BatchMovesBookings(db, org, q, f);
      CompanyCharged(batch, org, ClientId(db, q.company), BatchIds(db, org, q), year, g);
    }
  }

  lemma RestatedCharged(db: Db, id: Id, to: Status)
    requires Books(db) && Charged(db) && id in db.bookings
    ensures Charged(db.(bookings := Restated(db.bookings, id, to)))
  {
    SameLinesKeepCharges(db, db.(bookings := Restated(db.bookings, id, to)));
    KeptStaysCharged(db, db.(bookings := Restated(db.bookings, id, to)));
  }

  lemma GenerateCharged(db: Db, org: Id, id: Id, year: nat, f: InvoiceFaults)
    requires Books(db) && Charged(db) && InOrg(db.bookings, org, id)
    ensures Charged(AfterGenerate(db, org, id, year, f))
  {
    GenerateIsOneOrNone(db, org, id, year, f);
    OneRoomLine(RoomInvoice(db, org, id, year).lines[0]);
    OneMoreCharged(db, RoomInvoice(db, org, id, year));
  }

  lemma OneMoreCharged(db: Db, inv: Invoice)
    requires Charged(db) && ChargedAt(db, inv)
    ensures Charged(db.(invoices := db.invoices + [inv]))
  {
    var after := db.(invoices := db.invoices + [inv]);
    forall k | 0 <= k < |after.invoices| ensures ChargedAt(after, after.invoices[k]) {
      assert k < |db.invoices| ==> ChargedAt(db, db.invoices[k]);
    }
  }

  lemma StatusCharged(db: Db, org: Id, id: Id, to: Status, year: nat, f: StatusFaults)
    requires Books(db) && Charged(db)
    ensures Charged(AfterStatus(db, org, id, to, year, f))
  {
    if Unwritten(StatusError(db.bookings, org, id, to), f.write).None? {
      RestatedKeepsBooks(db, org, id, to);
      RestatedCharged(db, id, to);
      GenerateCharged(db.(bookings := Restated(db.bookings, id, to)), org, id, year, f.invoice);
    }
  }

  lemma DeleteCharged(db: Db, org: Id, id: Id)
    requires Books(db) && Charged(db)
    ensures Charged(AfterDelete(db, org, id))
  {
    var after := AfterDelete(db, org, id);
    if DeleteError(db, org, id).None? {
      forall k | 0 <= k < |db.invoices| ensures ChargedAt(after, after.invoices[k]) {
        var inv := db.invoices[k];
        assert inv in db.invoices && ChargedAt(db, inv);
        WhereEach(inv.lines, LineDetached(id), IsRoom, IsRoom);
        SumKept(Where(inv.lines, IsRoom), LineDetached(id));
      }
    }
  }

  lemma ArrivalCharged(db: Db, after: Db, booking: Option<Id>, its: seq<Item>, billed: seq<Item>)
    requires Books(db) && Charged(db) && Arrives(db, after, booking, its, billed)
    requires after.rooms == db.rooms && after.bookings == db.bookings
    ensures Charged(after)
  {
    forall k | 0 <= k < |db.invoices| ensures ChargeKept(db.invoices[k], after.invoices[k]) {
      var inv := db.invoices[k];
      assert Extended(inv, after.invoices[k], booking, billed);
      if inv.booking.Some? && inv.booking == booking {
        AppendedLines(inv, Each(billed, AsLine(booking.value)));
        SameRoomLines(inv.lines, billed, booking.value);
      }
    }
    KeptStaysCharged(db, after);
  }

  lemma RemovalCharged(db: Db, org: Id, order: nat, item: Id)
    requires Books(db) && Charged(db)
    ensures Charged(AfterRemove(db, org, order, item))
  {
    if RemoveError(db, org, order, item).None? {
      forall k | 0 <= k < |db.invoices| ensures Balanced(db.invoices[k]) { assert InvoiceOk(db, db.invoices[k]); }
      RemovalOnlyOrphans(db, org, order, item);
      var after := WithoutItem(db, item);
      forall k | 0 <= k < |db.invoices| ensures ChargeKept(db.invoices[k], after.invoices[k]) {
        assert InvoiceOk(db, db.invoices[k]);
        UnlinkedRoom(db.invoices[k].lines, item);
      }
      KeptStaysCharged(db, after);
    }
  }

  lemma EditedElsewhere(db: Db, stored: Db, id: Id, k: nat)
    requires Books(db) && Charged(db) && k < |db.invoices| && db.invoices[k].booking != Some(id)
    requires stored.rooms == db.rooms && forall i | i in db.bookings && i != id ::
      i in stored.bookings && stored.bookings[i] == db.bookings[i]
    ensures ChargedAt(stored, db.invoices[k])
  {
    assert InvoiceOk(db, db.invoices[k]) && ChargedAt(db, db.invoices[k]);
  }

  /** The booking's own invoice after an edit. */
  lemma EditedHere(db: Db, org: Id, id: Id, e: Edit, today: int, f: EditFaults, k: nat)
    requires Books(db) && Charged(db) && Unwritten(UpdateError(db.bookings, org, id, e), f.write).None?
    requires k < |db.invoices| && db.invoices[k].booking == Some(id)
    ensures var after := AfterUpdate(db, org, id, e, today, f);
      |after.invoices| == |db.invoices|
      && (ChargedAt(after, after.invoices[k]) <==> !LeavesMispriced(db, UpdateBooking(org, id, e, today, f)))
  {
    var after, b := AfterUpdate(db, org, id, e, today, f), Edited(db.bookings[id], e);
    var stored := db.(bookings := db.bookings[id := b]);
    var price := db.rooms[b.room].price;
    assert InvoiceOk(db, db.invoices[k]) && ChargedAt(db, db.invoices[k]) && RoomKnown(db, org, b.room);
    assert FindOwn(db.invoices, id, org) == Some(k);
    if (e.checkIn.Some? || e.checkOut.Some?) && !f.recharge {
      RechargePrices(stored, org, id, today, k);
      assert after == AfterRecharge(stored, org, id, today, false);
    } else {
      assert after == stored;
      SameProduct(Nights(b), Nights(db.bookings[id]), price);
    }
  }

  lemma SameProduct(m: nat, n: nat, price: nat)
    ensures m * price == n * price <==> m == n || price == 0
  {}

  lemma UpdateElsewhere(db: Db, org: Id, id: Id, e: Edit, today: int, f: EditFaults, k: nat)
    requires Books(db) && Charged(db) && Unwritten(UpdateError(db.bookings, org, id, e), f.write).None?
    requires k < |db.invoices| && db.invoices[k].booking != Some(id)
    ensures var after := AfterUpdate(db, org, id, e, today, f);
      |after.invoices| == |db.invoices| && ChargedAt(after, after.invoices[k])
  {
    var stored := db.(bookings := db.bookings[id := Edited(db.bookings[id], e)]);
    EditedElsewhere(db, stored, id, k);
    assert AfterUpdate(db, org, id, e, today, f).invoices[k] == db.invoices[k];
  }

  lemma UpdateChargesIff(db: Db, org: Id, id: Id, e: Edit, today: int, f: EditFaults)
    requires Books(db) && Charged(db)
    ensures Charged(AfterUpdate(db, org, id, e, today, f)) <==>
      !LeavesMispriced(db, UpdateBooking(org, id, e, today, f))
  {
    var after, bad := AfterUpdate(db, org, id, e, today, f), LeavesMispriced(db, UpdateBooking(org, id, e, today, f));
    if Unwritten(UpdateError(db.bookings, org, id, e), f.write).None? {
      assert |after.invoices| == |db.invoices|;
      forall k | 0 <= k < |db.invoices|
        ensures ChargedAt(after, after.invoices[k]) <==> !bad || db.invoices[k].booking != Some(id)
      {
        if db.invoices[k].booking == Some(id) { EditedHere(db, org, id, e, today, f, k); }
        else { UpdateElsewhere(db, org, id, e, today, f, k); }
      }
    }
  }

  lemma LongerCostsMore(m: nat, n: nat, price: nat)
    requires m < n
    ensures m * price == n * price <==> price == 0
  {}

  lemma JobChargesAt(db: Db, orgs: set<Id>, today: int, faults: JobFaults, k: nat)
    requires Books(db) && Charged(db) && AllStorable(db.bookings) && k < |db.invoices| && db.invoices[k].booking.Some?
    ensures var after, i := AfterOverdue(db, orgs, today, faults), db.invoices[k].booking.value;
      |after.invoices| == |db.invoices| && (ChargedAt(after, after.invoices[k]) <==>
        !(i in Overdue(db.bookings, orgs, today) - faults.extend && Priced(db, i)))
  {
    var after, i := AfterOverdue(db, orgs, today, faults), db.invoices[k].booking.value;
    JobLeavesChargesAlone(db, orgs, today, faults);
    assert InvoiceOk(db, db.invoices[k]) && ChargedAt(db, db.invoices[k]);
    assert RoomKnown(db, db.bookings[i].org, db.bookings[i].room);
    if i in Overdue(db.bookings, orgs, today) - faults.extend {
      LongerCostsMore(Nights(db.bookings[i]), Nights(after.bookings[i]), db.rooms[db.bookings[i].room].price);
    }
  }

  lemma JobChargesIff(db: Db, orgs: set<Id>, today: int, faults: JobFaults)
    requires Books(db) && Charged(db) && AllStorable(db.bookings)
    ensures Charged(AfterOverdue(db, orgs, today, faults)) <==> !LeavesMispriced(db, OverdueJob(orgs, today, faults))
  {
    var after := AfterOverdue(db, orgs, today, faults);
    JobLeavesChargesAlone(db, orgs, today, faults);
    forall k | 0 <= k < |db.invoices| && db.invoices[k].booking.Some?
      ensures ChargedAt(after, after.invoices[k]) <==>
        !(db.invoices[k].booking.value in Overdue(db.bookings, orgs, today) - faults.extend
          && Priced(db, db.invoices[k].booking.value))
    { JobChargesAt(db, orgs, today, faults, k); }
    if LeavesMispriced(db, OverdueJob(orgs, today, faults)) {
      var i :| i in Overdue(db.bookings, orgs, today) - faults.extend && OwnInvoiced(db, Some(i)) && Priced(db, i);
      var k :| 0 <= k < |db.invoices| && db.invoices[k].booking == Some(i);
      assert !ChargedAt(after, after.invoices[k]);
    }
  }

  lemma PlaceCharged(db: Db, org: Id, b: Id, qs: seq<ItemRequest>, today: int, f: OrderFaults)
    requires Books(db) && Charged(db)
    ensures Charged(AfterPlace(db, org, b, qs, today, f))
  {
    if PlaceOrderError(db, org, b, qs, f).None? {
      PlaceArrives(db, org, b, qs, today, f);
      var its := NewItems(db.menu, org, |db.orders|, db.next, qs, |qs|);
      ArrivalCharged(db, AfterPlace(db, org, b, qs, today, f), Some(b), its, Reached(its, f));
    }
  }

  lemma AddCharged(db: Db, org: Id, order: nat, qs: seq<ItemRequest>, f: OrderFaults)
    requires Books(db) && Charged(db)
    ensures Charged(AfterAdd(db, org, order, qs, f))
  {
    if AddError(db, org, order, qs, f).None? {
      AddArrives(db, org, order, qs, f);
      var its := NewItems(db.menu, org, order, db.next, qs, |qs|);
      ArrivalCharged(db, AfterAdd(db, org, order, qs, f), db.orders[order].booking, its, Reached(its, f));
    }
  }

  lemma SameLinesCharged(db: Db, after: Db)
    requires Books(db) && Charged(db) && SameLines(db.invoices, after.invoices) && after.rooms == db.rooms
    requires StaysKept(db.bookings, after.bookings)
    ensures Charged(after)
  {
    SameLinesKeepCharges(db, after);
    KeptStaysCharged(db, after);
  }

  lemma WalkInCharged(db: Db, org: Id, qs: seq<ItemRequest>, today: int, f: OrderFaults)
    requires Books(db) && Charged(db)
    ensures Charged(AfterWalkIn(db, org, qs, today, f))
  {
    SameLinesCharged(db, AfterWalkIn(db, org, qs, today, f));
  }

  lemma OrderCharged(db: Db, op: Op)
    requires Books(db) && Charged(db) && OrderOp(op)
    ensures Charged(Step(db, op))
  {
    if op.PlaceOrder? { PlaceCharged(db, op.org, op.booking, op.wanted, op.today, op.of); }
    else if op.AddItems? { AddCharged(db, op.org, op.order, op.wanted, op.of); }
    else if op.RemoveItem? { RemovalCharged(db, op.org, op.order, op.item); }
    else if op.PlaceWalkIn? { WalkInCharged(db, op.org, op.wanted, op.today, op.of); }
    else { SameLinesCharged(db, AfterClose(db, op.org, op.today)); }
  }

  lemma IndividualCharged(db: Db, org: Id, q: StayRequest, f: StayFaults)
    requires Books(db) && Charged(db)
    ensures Charged(AfterIndividual(db, org, q, f))
  {
    SameLinesCharged(db, AfterIndividual(db, org, q, f));
  }

  lemma GuestCharged(db: Db, profile: Option<Id>, q: StayRequest, f: GuestFaults)
    requires Books(db) && Charged(db)
    ensures Charged(AfterGuest(db, profile, q, f))
  {
    SameLinesCharged(db, AfterGuest(db, profile, q, f));
  }

  lemma CancelCharged(db: Db, client: Id, id: Id)
    requires Books(db) && Charged(db)
    ensures Charged(AfterCancel(db, client, id))
  {
    if CancelError(db, client, id).None? { RestatedCharged(db, id, Cancelled); }
  }

  lemma OutcomeCharged(db: Db, org: Id, id: Id, approved: bool)
    requires Books(db) && Charged(db)
    ensures Charged(db.(bookings := OutcomeApplied(db.bookings, org, id, approved)))
  {
    if InOrg(db.bookings, org, id) { RestatedCharged(db, id, if approved then Confirmed else Cancelled); }
  }

  lemma OthersCharged(db: Db, op: Op)
    requires Books(db) && Charged(db) && !op.UpdateBooking? && !op.OverdueJob?
    ensures Charged(Step(db, op))
  {
    if OrderOp(op) {
      OrderCharged(db, op);
    } else {
      match op {
        case CreateIndividual(org, q, f) => IndividualCharged(db, org, q, f);
        case GuestCreate(profile, q, f) => GuestCharged(db, profile, q, f);
        case CreateCorporate(org, batch, year, f, g) => BatchCharged(db, org, batch, year, f, g);
        case UpdateStatus(org, id, to, year, f) => StatusCharged(db, org, id, to, year, f);
        case GuestCancel(client, id) => CancelCharged(db, client, id);
        case DeleteBooking(org, id) => DeleteCharged(db, org, id);
        case WorkflowOutcome(org, id, approved) => OutcomeCharged(db, org, id, approved);
      }
    }
  }

  lemma StepChargesIff(db: Db, op: Op)
    requires Books(db) && Charged(db) && AllStorable(db.bookings)
    ensures Charged(Step(db, op)) <==> !LeavesMispriced(db, op)
  {
    match op
    case UpdateBooking(org, id, e, today, f) => UpdateChargesIff(db, org, id, e, today, f);
    case OverdueJob(orgs, today, faults) => JobChargesIff(db, orgs, today, faults);
    case _ => OthersCharged(db, op);
  }

  // ---------- no stay is empty ----------

  lemma BatchStorable(db: Db, org: Id, q: BatchRequest, year: nat, f: BatchFaults, g: InvoiceFaults)
    requires Books(db) && AllStorable(db.bookings)
    ensures AllStorable(AfterCorporate(db, org, q, year, f, g).bookings)
  {
    BatchBookings(db, org, q, year, f, g);
    if BatchError(db, org, q, f).None? {
      var batch, ids := WithBatch(db, org, q), BatchIds(db, org, q);
      BatchAddsExactlyItsGuests(WithCompany(db, org, q.company), org, ClientId(db, q.company), q.guests, |q.guests|);
      GuestsStand(db, org, q, f);
      forall i | i in batch.bookings ensures Storable(batch.bookings[i]) {
        assert i in db.bookings || i in (set x | x in ids);
      }
    }
  }

  lemma IndividualStorable(db: Db, org: Id, q: StayRequest, f: StayFaults)
    requires AllStorable(db.bookings)
    ensures AllStorable(AfterIndividual(db, org, q, f).bookings)
  {}

  lemma GuestStorable(db: Db, profile: Option<Id>, q: StayRequest, f: GuestFaults)
    requires AllStorable(db.bookings)
    ensures AllStorable(AfterGuest(db, profile, q, f).bookings)
  {}

  lemma EditStorable(db: Db, org: Id, id: Id, e: Edit, today: int, f: EditFaults)
    requires AllStorable(db.bookings)
    ensures AllStorable(AfterUpdate(db, org, id, e, today, f).bookings)
  {
    if Unwritten(UpdateError(db.bookings, org, id, e), f.write).None? {
      assert AfterUpdate(db, org, id, e, today, f).bookings == db.bookings[id := Edited(db.bookings[id], e)];
    }
  }

  lemma RestateStorable(db: Db, org: Id, id: Id, to: Status, year: nat, f: StatusFaults)
    requires AllStorable(db.bookings)
    ensures AllStorable(AfterStatus(db, org, id, to, year, f).bookings)
  {
    if Unwritten(StatusError(db.bookings, org, id, to), f.write).None? {
      assert AfterStatus(db, org, id, to, year, f).bookings == Restated(db.bookings, id, to);
    }
  }

  lemma RowsStorable(db: Db, op: Op)
    requires AllStorable(db.bookings) && (op.GuestCancel? || op.DeleteBooking? || op.WorkflowOutcome? || op.OverdueJob?)
    ensures AllStorable(Step(db, op).bookings)
  {}

  lemma StepStorable(db: Db, op: Op)
    requires Books(db) && AllStorable(db.bookings)
    ensures AllStorable(Step(db, op).bookings)
  {
    if OrderOp(op) {
      OrdersLeaveBookingsAlone(db, op);
    } else {
      match op {
        case CreateIndividual(org, q, f) => IndividualStorable(db, org, q, f);
        case GuestCreate(profile, q, f) => GuestStorable(db, profile, q, f);
        case CreateCorporate(org, batch, year, f, g) => BatchStorable(db, org, batch, year, f, g);
        case UpdateBooking(org, id, e, today, f) => EditStorable(db, org, id, e, today, f);
        case UpdateStatus(org, id, to, year, f) => RestateStorable(db, org, id, to, year, f);
        case _ => RowsStorable(db, op);
      }
    }
  }

  /** Over every run: every own invoice charges exactly the nights of its stay at the room's price, at
      every moment, if and only if the nightly job never extends a stay that has an invoice and a priced
      room, and no edit changes the nights of such a stay while its invoice cannot be repriced. */
  lemma ChargedOverRuns(db: Db, ops: seq<Op>)
    requires Books(db) && AllStorable(db.bookings) && Charged(db)
    ensures GoodThroughout(Step, db, ops, (s: Db) => Charged(s), |ops|)
      <==> SafeThroughout(Step, db, ops, (s, o) => !LeavesMispriced(s, o), |ops|)
  {
    forall s, o | Books(s) && AllStorable(s.bookings)
      ensures Books(Step(s, o)) && AllStorable(Step(s, o).bookings)
      ensures Charged(s) ==> (Charged(Step(s, o)) <==> !LeavesMispriced(s, o))
    {
      StepKeepsBooks(s, o);
      StepStorable(s, o);
      if Charged(s) { StepChargesIff(s, o); }
    }
    GoodIffSafe(Step, db, ops, (s: Db) => Books(s) && AllStorable(s.bookings), (s: Db) => Charged(s),
      (s, o) => !LeavesMispriced(s, o), |ops|);
  }

  // ---------- the smallest cases ----------

  /** The stay of `OneStay`, its guest in the room. */
  function InTheRoom(): Db { OneStay().(bookings := Restated(OneStay().bookings, 2, CheckedIn)) }

  lemma InTheRoomIsCharged()
    ensures Books(InTheRoom()) && Charged(InTheRoom()) && AllStorable(InTheRoom().bookings)
    ensures OwnInvoiced(InTheRoom(), Some(2)) && Priced(InTheRoom(), 2)
  {
    OneStayIsInOrder();
    RestatedKeepsBooks(OneStay(), 1, 2, CheckedIn);
    OneRoomLine(InTheRoom().invoices[0].lines[0]);
    assert InTheRoom().invoices[0].booking == Some(2);
  }

  lemma OverstayIsExtended()
    ensures 2 in Overdue(InTheRoom().bookings, {1}, 103)
    ensures AfterOverdue(InTheRoom(), {1}, 103, JobFaults({}, {}, {})).bookings[2].checkOut == 103
  {}

  /** The guest should have left on day 101. The job makes it day 103, nothing failing, and the
      invoice still charges one night. */
  lemma OverstayedNightsAreFree()
    ensures var after := AfterOverdue(InTheRoom(), {1}, 103, JobFaults({}, {}, {}));
      && Books(InTheRoom()) && Charged(InTheRoom()) && !Charged(after)
      && after.bookings[2].checkOut == 103
  {
    InTheRoomIsCharged();
    OverstayIsExtended();
    JobChargesIff(InTheRoom(), {1}, 103, JobFaults({}, {}, {}));
  }

  lemma LongerStayAccepted()
    ensures UpdateError(InTheRoom().bookings, 1, 2, Edit(None, Some(103), None)).None?
    ensures LeavesMispriced(InTheRoom(), UpdateBooking(1, 2, Edit(None, Some(103), None), 101, EditFaults(false, true)))
  {
    assert OwnInvoiced(InTheRoom(), Some(2)) && Priced(InTheRoom(), 2) by { InTheRoomIsCharged(); }
  }

  /** Two more nights by an edit whose invoice cannot be written: accepted, and the invoice still charges
      one night. */
  lemma LongerStayNotRepriced()
    ensures var e, f := Edit(None, Some(103), None), EditFaults(false, true);
      && Books(InTheRoom()) && Charged(InTheRoom()) && UpdateError(InTheRoom().bookings, 1, 2, e).None?
      && !Charged(AfterUpdate(InTheRoom(), 1, 2, e, 101, f))
  {
    InTheRoomIsCharged();
    LongerStayAccepted();
    UpdateChargesIff(InTheRoom(), 1, 2, Edit(None, Some(103), None), 101, EditFaults(false, true));
  }
}
