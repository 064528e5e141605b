/** The books over whole runs, what new invoices say, and the exact effect of putting items on an
    order and taking them off again. */
module BillingTheorems {
  import opened Prelude
  import opened Schema
  import opened Reservations
  import opened Billing
  import opened InvoiceNumbers
  import opened LodgeSteps
  import opened BookingRuns
  import opened BillingRuns
  import opened Runs

  lemma BatchKeepsRooms(db: Db, org: Id, company: Id, gs: seq<GuestRequest>, n: nat)
    requires n <= |gs| && Filed(db)
    requires forall k | 0 <= k < n :: PlaceError(db, org, gs[k]).None?
    ensures forall i | i in WithGuests(db, org, company, gs, n).bookings ::
      var b := WithGuests(db, org, company, gs, n).bookings[i]; RoomKnown(db, b.org, b.room)
  {
    if n > 0 { BatchKeepsRooms(db, org, company, gs, n - 1); }
  }

  lemma BatchKeepsFiles(db: Db, org: Id, q: BatchRequest, f: BatchFaults)
    requires Filed(db) && BatchError(db, org, q, f).None?
    ensures forall i | i in WithBatch(db, org, q).bookings ::
      var b := WithBatch(db, org, q).bookings[i]; RoomKnown(db, b.org, b.room)
  {
    var start := WithCompany(db, org, q.company);
    NoFirstError(q.guests, |q.guests|, (i: nat, g) => PlaceError(db, org, g));
    forall k | 0 <= k < |q.guests| ensures PlaceError(start, org, q.guests[k]).None? {
      assert PlaceError(db, org, q.guests[k]).None?;
    }
    BatchKeepsRooms(start, org, ClientId(db, q.company), q.guests, |q.guests|);
  }

  lemma BatchExtends(db: Db, org: Id, q: BatchRequest)
    requires Numbered(db)
    ensures var after := WithBatch(db, org, q);
      Numbered(after) && db.next <= after.next && Evolved(db.bookings, after.bookings) && after.rooms == db.rooms
      && after.orders == db.orders && after.items == db.items && after.invoices == db.invoices
  {
    BatchAddsExactlyItsGuests(WithCompany(db, org, q.company), org, ClientId(db, q.company), q.guests, |q.guests|);
  }

  lemma BatchMovesBookings(db: Db, org: Id, q: BatchRequest, f: BatchFaults)
    requires Books(db) && BatchError(db, org, q, f).None?
    ensures Books(WithBatch(db, org, q))
  {
    BatchKeepsFiles(db, org, q, f);
    BatchExtends(db, org, q);
    BookingsMoved(db, WithBatch(db, org, q));
  }

  lemma CorporateKeepsBooks(db: Db, org: Id, q: BatchRequest, year: nat, f: BatchFaults, g: InvoiceFaults)
    requires Books(db)
    ensures Books(AfterCorporate(db, org, q, year, f, g))
  {
    if BatchError(db, org, q, f).None? {
      BatchMovesBookings(db, org, q, f);
      GenerateCompanyKeepsBooks(WithBatch(db, org, q), org, ClientId(db, q.company), BatchIds(db, org, q), year, g);
    }
  }

  lemma OrdersKeepBooks(db: Db, op: Op)
    requires Books(db) && OrderOp(op)
    ensures Books(Step(db, op))
  {
    match op
    case PlaceOrder(org, booking, wanted, today, f) => PlaceKeepsBooks(db, org, booking, wanted, today, f);
    case PlaceWalkIn(org, wanted, today, f) => WalkInKeepsBooks(db, org, wanted, today, f);
    case AddItems(org, order, wanted, f) => AddKeepsBooks(db, org, order, wanted, f);
    case RemoveItem(org, order, item) => RemoveKeepsBooks(db, org, order, item);
    case CloseAllOrders(org, today) => CloseKeepsBooks(db, org, today);
  }

  lemma StepKeepsBooks(db: Db, op: Op)
    requires Books(db)
    ensures Books(Step(db, op))
  {
    match op
    case CreateIndividual(org, q, f) => IndividualKeepsBooks(db, org, q, f);
    case GuestCreate(profile, q, f) => GuestKeepsBooks(db, profile, q, f);
    case CreateCorporate(org, batch, year, f, g) => CorporateKeepsBooks(db, org, batch, year, f, g);
    case UpdateBooking(org, id, edit, today, f) => UpdateKeepsBooks(db, org, id, edit, today, f);
    case UpdateStatus(org, id, to, year, f) => StatusKeepsBooks(db, org, id, to, year, f);
    case GuestCancel(client, id) => CancelKeepsBooks(db, client, id);
    case DeleteBooking(org, id) => DeleteKeepsBooks(db, org, id);
    case WorkflowOutcome(org, id, approved) => OutcomeKeepsBooks(db, org, id, approved);
    case OverdueJob(orgs, today, faults) => JobKeepsBooks(db, orgs, today, faults);
    case _ => OrdersKeepBooks(db, op);
  }

  /** A lodge with its rooms, clients and menu and nothing booked yet. */
  function Opened(rooms: map<Id, Room>, clients: map<Id, Option<Id>>, companies: map<Id, Id>,
                  menu: map<Id, MenuItem>, next: Id): Db {
    Db(rooms, clients, companies, map[], menu, [], [], [], next)
  }

  /** Its books are in order; RunKeepsBooks goes on from there. */
  lemma OpeningBooks(rooms: map<Id, Room>, clients: map<Id, Option<Id>>, companies: map<Id, Id>,
                     menu: map<Id, MenuItem>, next: Id)
    requires forall i | i in clients :: i < next
    ensures Books(Opened(rooms, clients, companies, menu, next))
  {}

  /** Whatever is called, in whatever order, and whichever of the reads and writes a call passes over
      fail: every invoice adds up, no booking has two, and no number is repeated or skipped. */
  lemma RunKeepsBooks(db: Db, ops: seq<Op>, n: nat)
    requires n <= |ops| && Books(db)
    ensures Books(At(Step, db, ops, n))
  {
    forall s, o | Books(s) ensures Books(Step(s, o)) { StepKeepsBooks(s, o); }
    Always(Step, db, ops, s => Books(s), n);
  }

  // ---------- new invoices ----------

  lemma RoomInvoiceReads(db: Db, org: Id, id: Id, year: nat)
    requires id in db.bookings && db.bookings[id].room in db.rooms && Storable(db.bookings[id])
    ensures var inv, b := RoomInvoice(db, org, id, year), db.bookings[id];
      && inv.subtotal == (b.checkOut - b.checkIn) * db.rooms[b.room].price && inv.rate == TAX_RATE && Balanced(inv)
  {
    OneRoomLine(RoomLine(None, Nights(db.bookings[id]), db.rooms[db.bookings[id].room].price));
  }

  /** Confirming an individual stay stores exactly one new invoice: the nights at the room's price,
      tax on top, the year's next number, due at check-out; and it is the one the booking finds. If
      the booking or its room cannot be read, or the invoice cannot be stored, there is none, and the
      stay is confirmed all the same. */
  lemma ConfirmationBillsTheRoom(db: Db, org: Id, id: Id, year: nat, f: StatusFaults)
    requires Books(db) && StatusError(db.bookings, org, id, Confirmed).None? && db.bookings[id].company.None?
    requires FindOwn(db.invoices, id, org).None? && Storable(db.bookings[id]) && !f.write
    ensures var after, b, n := AfterStatus(db, org, id, Confirmed, year, f), db.bookings[id], |db.invoices|;
      && after.bookings == Restated(db.bookings, id, Confirmed)
      && if 0 in f.invoice.unread || f.invoice.lost then after.invoices == db.invoices
         else
           && |after.invoices| == n + 1 && after.invoices[..n] == db.invoices
           && FindOwn(after.invoices, id, org) == Some(n) && b.room in db.rooms
           && after.invoices[n].subtotal == (b.checkOut - b.checkIn) * db.rooms[b.room].price
           && after.invoices[n].rate == 1600 && Balanced(after.invoices[n])
           && after.invoices[n].due == Some(b.checkOut)
           && after.invoices[n].number == NextNumber(db.invoices, year)
           && |after.invoices[n].lines| == 1
           && after.invoices[n].lines[0].quantity == b.checkOut - b.checkIn
           && after.invoices[n].lines[0].unitPrice == db.rooms[b.room].price
  {
    var stored := db.(bookings := Restated(db.bookings, id, Confirmed));
    RestatedKeepsBooks(db, org, id, Confirmed);
    GenerateIsOneOrNone(stored, org, id, year, f.invoice);
    FirstOfItsBooking(stored, org, id, RoomInvoice(stored, org, id, year));
    RoomInvoiceReads(stored, org, id, year);
    assert AfterStatus(db, org, id, Confirmed, year, f) == AfterGenerate(stored, org, id, year, f.invoice);
  }

  /** The positions among the first n that can be read. */
  function Readable(n: nat, unread: set<nat>): (r: seq<nat>)
    ensures |r| <= n && forall j | 0 <= j < |r| :: r[j] < n && r[j] !in unread
    ensures forall i | 0 <= i < n && i !in unread :: i in r
    ensures forall j, k | 0 <= j < k < |r| :: r[j] < r[k]
  { if n == 0 then [] else Readable(n - 1, unread) + if n - 1 in unread then [] else [n - 1] }

  lemma {:induction false} OneLinePerBooking(db: Db, org: Id, ids: seq<Id>, n: nat, unread: set<nat>)
    requires n <= |ids|
    requires forall k | 0 <= k < n :: InOrg(db.bookings, org, ids[k]) && RoomKnown(db, org, db.bookings[ids[k]].room)
    ensures var lines, seen := CompanyLines(db, org, ids, n, unread), Readable(n, unread);
      |lines| == |seen| && forall j | 0 <= j < |seen| :: var id := ids[seen[j]];
        id in db.bookings && db.bookings[id].room in db.rooms
        && lines[j] == RoomLine(Some(id), Nights(db.bookings[id]), db.rooms[db.bookings[id].room].price)
  {
    if n > 0 {
      OneLinePerBooking(db, org, ids, n - 1, unread);
      assert n - 1 !in unread ==> RoomKnown(db, org, db.bookings[ids[n - 1]].room);
    }
  }

  /** The line that bills this guest for the booking `id`. */
  ghost predicate BillsGuest(db: Db, guest: GuestRequest, id: Id, line: Line) {
    && guest.room in db.rooms && guest.checkIn < guest.checkOut
    && line.booking == Some(id) && line.order.None? && line.orderItem.None?
    && line.quantity == guest.checkOut - guest.checkIn && line.unitPrice == db.rooms[guest.room].price
    && line.total == (guest.checkOut - guest.checkIn) * db.rooms[guest.room].price
  }

  lemma GuestsAreBilled(db: Db, org: Id, q: BatchRequest, f: BatchFaults, unread: set<nat>)
    requires Books(db) && BatchError(db, org, q, f).None?
    ensures var ids, seen := BatchIds(db, org, q), Readable(|q.guests|, unread);
      var lines := CompanyLines(WithBatch(db, org, q), org, ids, |ids|, unread);
      |ids| == |q.guests| && |lines| == |seen|
      && forall j | 0 <= j < |seen| :: BillsGuest(db, q.guests[seen[j]], ids[seen[j]], lines[j])
  {
    var batch, ids, seen := WithBatch(db, org, q), BatchIds(db, org, q), Readable(|q.guests|, unread);
    BatchExtends(db, org, q);
    GuestsStand(db, org, q, f);
    OneLinePerBooking(batch, org, ids, |ids|, unread);
    var lines := CompanyLines(batch, org, ids, |ids|, unread);
    forall j | 0 <= j < |seen| ensures BillsGuest(db, q.guests[seen[j]], ids[seen[j]], lines[j]) {
      GuestsLine(db, org, q.guests[seen[j]], ids[seen[j]], batch.bookings[ids[seen[j]]], lines[j]);
    }
  }

  lemma GuestsLine(db: Db, org: Id, guest: GuestRequest, id: Id, b: Booking, line: Line)
    requires RoomKnown(db, org, guest.room) && guest.checkIn < guest.checkOut
    requires b.room == guest.room && b.checkIn == guest.checkIn && b.checkOut == guest.checkOut
    requires line == RoomLine(Some(id), Nights(b), db.rooms[b.room].price)
    ensures BillsGuest(db, guest, id, line)
  {}

  /** A committed batch of a company without an invoice gets one, with one line in request order for
      each guest whose booking and room can be read: the booking just made for that guest, its nights,
      and its room's price. */
  lemma BatchBillsEveryGuest(db: Db, org: Id, q: BatchRequest, year: nat, f: BatchFaults, g: InvoiceFaults)
    requires Books(db) && BatchError(db, org, q, f).None?
    requires FindCompany(db.invoices, ClientId(db, q.company), org).None?
    requires Readable(|q.guests|, g.unread) != [] && !g.lost
    ensures var after, n, ids := AfterCorporate(db, org, q, year, f, g), |db.invoices|, BatchIds(db, org, q);
      var seen := Readable(|q.guests|, g.unread);
      && |after.invoices| == n + 1 && after.invoices[..n] == db.invoices
      && after.invoices[n].company == Some(ClientId(db, q.company)) && Balanced(after.invoices[n])
      && after.invoices[n].org == org && after.invoices[n].booking.None? && after.invoices[n].due.None?
      && after.invoices[n].rate == 1600
      && |after.invoices[n].lines| == |seen|
      && forall j | 0 <= j < |seen| :: BillsGuest(db, q.guests[seen[j]], ids[seen[j]], after.invoices[n].lines[j])
  {
    var batch, ids, company := WithBatch(db, org, q), BatchIds(db, org, q), ClientId(db, q.company);
    BatchMovesBookings(db, org, q, f);
    BatchExtends(db, org, q);
    GuestsAreBilled(db, org, q, f, g.unread);
    CompanyInvoiced(batch, org, company, ids, year, g);
    assert AfterCorporate(db, org, q, year, f, g) == AfterGenerateCompany(batch, org, company, ids, year, g);
  }

  lemma CompanyInvoiced(db: Db, org: Id, company: Id, ids: seq<Id>, year: nat, f: InvoiceFaults)
    requires Counted(db.invoices) && FindCompany(db.invoices, company, org).None?
    requires CompanyLines(db, org, ids, |ids|, f.unread) != [] && !f.lost
    ensures var invs := AfterGenerateCompany(db, org, company, ids, year, f).invoices;
      && |invs| == |db.invoices| + 1 && invs[..|db.invoices|] == db.invoices
      && invs[|db.invoices|].company == Some(company) && Balanced(invs[|db.invoices|])
      && invs[|db.invoices|].org == org && invs[|db.invoices|].booking.None? && invs[|db.invoices|].due.None?
      && invs[|db.invoices|].rate == 1600
      && invs[|db.invoices|].lines == CompanyLines(db, org, ids, |ids|, f.unread)
  {
    var lines := CompanyLines(db, org, ids, |ids|, f.unread);
    var inv := NewInvoice(org, year, NextNumber(db.invoices, year), None, Some(company), None, lines);
    InsertionSucceeds(db.invoices, inv);
    assert (db.invoices + [inv])[..|db.invoices|] == db.invoices;
  }

  /** Each guest of a committed batch has a row for the room and dates asked for. */
  lemma GuestsStand(db: Db, org: Id, q: BatchRequest, f: BatchFaults)
    requires Books(db) && BatchError(db, org, q, f).None?
    ensures var batch, ids := WithBatch(db, org, q), BatchIds(db, org, q);
      |ids| == |q.guests| && forall k | 0 <= k < |ids| :: var g := q.guests[k];
        InOrg(batch.bookings, org, ids[k]) && RoomKnown(db, org, g.room) && g.checkIn < g.checkOut
        && batch.bookings[ids[k]].room == g.room && Storable(batch.bookings[ids[k]])
        && batch.bookings[ids[k]].checkIn == g.checkIn && batch.bookings[ids[k]].checkOut == g.checkOut
  {
    var batch, ids, company := WithBatch(db, org, q), BatchIds(db, org, q), ClientId(db, q.company);
    BatchAddsExactlyItsGuests(WithCompany(db, org, q.company), org, company, q.guests, |q.guests|);
    NoFirstError(q.guests, |q.guests|, (i: nat, g) => FieldError(g));
    NoFirstError(q.guests, |q.guests|, (i: nat, g) => PlaceError(db, org, g));
    forall k | 0 <= k < |ids| ensures var g := q.guests[k];
      InOrg(batch.bookings, org, ids[k]) && RoomKnown(db, org, g.room) && g.checkIn < g.checkOut
      && batch.bookings[ids[k]].room == g.room && Storable(batch.bookings[ids[k]])
      && batch.bookings[ids[k]].checkIn == g.checkIn && batch.bookings[ids[k]].checkOut == g.checkOut
    {
      assert Saved(batch, org, company, q.guests[k], ids[k]);
      assert FieldError(q.guests[k]).None? && PlaceError(db, org, q.guests[k]).None?;
    }
  }

  /** The room line shows these nights at this price. */
  ghost predicate RoomAt(inv: Invoice, nights: int, price: nat) {
    forall l {:trigger IsRoom(l)} | l in inv.lines && IsRoom(l) :: l.quantity == nights && l.unitPrice == price
  }

  /** Once new dates are accepted, the booking's own invoice charges exactly the new nights at the
      room's price, is due at the moment of the edit, and still adds up; unless the invoice cannot be
      read or written, in which case it stays as it was. */
  lemma EditReprices(db: Db, org: Id, id: Id, e: Edit, today: int, f: EditFaults)
    requires Books(db) && UpdateError(db.bookings, org, id, e).None? && (e.checkIn.Some? || e.checkOut.Some?)
      && !f.write
    requires FindOwn(db.invoices, id, org).Some?
    ensures var after, k := AfterUpdate(db, org, id, e, today, f), FindOwn(db.invoices, id, org).value;
      var b := after.bookings[id];
      && Books(after) && k < |after.invoices|
      && if f.recharge then after.invoices == db.invoices
         else
           && RoomCharge(after.invoices[k]) == (b.checkOut - b.checkIn) * db.rooms[b.room].price
           && after.invoices[k].due == Some(today)
           && RoomAt(after.invoices[k], b.checkOut - b.checkIn, db.rooms[b.room].price)
  {
    UpdateKeepsBooks(db, org, id, e, today, f);
    assert InvoiceOk(db, db.invoices[FindOwn(db.invoices, id, org).value]);
    EditRecharges(db, org, id, e, today, f, FindOwn(db.invoices, id, org).value);
  }

  lemma EditRecharges(db: Db, org: Id, id: Id, e: Edit, today: int, f: EditFaults, k: nat)
    requires UpdateError(db.bookings, org, id, e).None? && (e.checkIn.Some? || e.checkOut.Some?) && !f.write
    requires RoomKnown(db, org, db.bookings[id].room)
    requires FindOwn(db.invoices, id, org) == Some(k) && |Where(db.invoices[k].lines, IsRoom)| == 1
    requires forall l | l in db.invoices[k].lines && l.orderItem.Some? :: l.order.Some?
    ensures var after, b := AfterUpdate(db, org, id, e, today, f), Edited(db.bookings[id], e);
      && id in after.bookings && after.bookings[id] == b && k < |after.invoices|
      && if f.recharge then after.invoices == db.invoices
         else
           && RoomCharge(after.invoices[k]) == (b.checkOut - b.checkIn) * db.rooms[b.room].price
           && after.invoices[k].due == Some(today)
           && RoomAt(after.invoices[k], b.checkOut - b.checkIn, db.rooms[b.room].price)
  {
    var stored := db.(bookings := db.bookings[id := Edited(db.bookings[id], e)]);
    RechargePrices(stored, org, id, today, k);
    assert AfterUpdate(db, org, id, e, today, f) == AfterRecharge(stored, org, id, today, f.recharge);
  }

  lemma RechargePrices(db: Db, org: Id, id: Id, today: int, k: nat)
    requires InOrg(db.bookings, org, id) && RoomKnown(db, org, db.bookings[id].room)
    requires FindOwn(db.invoices, id, org) == Some(k) && |Where(db.invoices[k].lines, IsRoom)| == 1
    requires forall l | l in db.invoices[k].lines && l.orderItem.Some? :: l.order.Some?
    ensures var after := AfterRecharge(db, org, id, today, false);
      && k < |after.invoices|
      && RoomCharge(after.invoices[k]) == Nights(db.bookings[id]) * db.rooms[db.bookings[id].room].price
      && after.invoices[k].due == Some(today) && after.bookings == db.bookings && after.rooms == db.rooms
      && RoomAt(after.invoices[k], Nights(db.bookings[id]), db.rooms[db.bookings[id].room].price)
  {
    RechargedRoom(db.invoices[k], Nights(db.bookings[id]), db.rooms[db.bookings[id].room].price, today);
  }

  // ---------- on the order and off again ----------

  /** The items taken off one by one, in the order given. */
  function AfterRemoveAll(db: Db, org: Id, order: nat, items: seq<Id>): Db {
    if items == [] then db
    else AfterRemove(AfterRemoveAll(db, org, order, items[..|items| - 1]), org, order, items[|items| - 1])
  }

  ghost predicate SameAmounts(a: Invoice, b: Invoice) {
    a.subtotal == b.subtotal && a.tax == b.tax && a.total == b.total && a.rate == b.rate && a.booking == b.booking
  }

  /** Taking an item off an order never changes an amount on any invoice, own or corporate. */
  lemma RemovalNeverCredits(db: Db, org: Id, order: nat, item: Id, k: nat)
    requires Books(db) && k < |db.invoices|
    ensures |AfterRemove(db, org, order, item).invoices| == |db.invoices|
    ensures SameAmounts(AfterRemove(db, org, order, item).invoices[k], db.invoices[k])
  {
    if RemoveError(db, org, order, item).None? {
      forall j | 0 <= j < |db.invoices| ensures Balanced(db.invoices[j]) { assert InvoiceOk(db, db.invoices[j]); }
      RemovalOnlyOrphans(db, org, order, item);
    }
  }

  function NotAmong(items: seq<Id>): Item -> bool { (it: Item) => it.id !in items }

  lemma AfterOneRemoval(db: Db, org: Id, order: nat, item: Id)
    requires Books(db) && OrderKnown(db, org, order) && db.orders[order].open
    requires forall it | it in db.items && it.id == item :: it.order == order
    ensures AfterRemove(db, org, order, item).items == Where(db.items, OtherThan(item))
    ensures AfterRemove(db, org, order, item).orders == db.orders
  {
    if RemoveError(db, org, order, item).Some? { WhereAll(db.items, OtherThan(item)); }
  }

  lemma {:induction false} RemoveAllEffect(db: Db, org: Id, order: nat, items: seq<Id>, k: nat)
    requires Books(db) && OrderKnown(db, org, order) && db.orders[order].open
    requires forall it | it in db.items && it.id in items :: it.order == order
    ensures Books(AfterRemoveAll(db, org, order, items))
    ensures AfterRemoveAll(db, org, order, items).items == Where(db.items, NotAmong(items))
    ensures AfterRemoveAll(db, org, order, items).orders == db.orders
    ensures |AfterRemoveAll(db, org, order, items).invoices| == |db.invoices|
    ensures k < |db.invoices| ==> SameAmounts(AfterRemoveAll(db, org, order, items).invoices[k], db.invoices[k])
  {
    if items == [] {
      WhereAll(db.items, NotAmong(items));
    } else {
      var init, x := items[..|items| - 1], items[|items| - 1];
      assert items == init + [x];
      RemoveAllEffect(db, org, order, init, k);
      var before := AfterRemoveAll(db, org, order, init);
      AfterOneRemoval(before, org, order, x);
      WhereAnd(db.items, NotAmong(init), OtherThan(x), NotAmong(items));
      RemoveKeepsBooks(before, org, order, x);
      if k < |db.invoices| { RemovalNeverCredits(before, org, order, x, k); }
      assert |AfterRemove(before, org, order, x).invoices| == |before.invoices|;
    }
  }

  lemma NewItemsGone(items: seq<Item>, added: seq<Item>, removal: seq<Id>)
    requires forall it | it in items :: it.id !in removal
    requires forall it | it in added :: it.id in removal
    ensures Where(items + added, NotAmong(removal)) == items
  {
    WhereConcat(items, added, NotAmong(removal));
    WhereAll(items, NotAmong(removal));
    WhereNone(added, NotAmong(removal));
  }

  lemma AddedThenGone(db: Db, org: Id, order: nat, qs: seq<ItemRequest>, f: OrderFaults, removal: seq<Id>)
    requires Filed(db) && AddError(db, org, order, qs, f).None?
    requires forall id :: id in removal <==> db.next <= id < db.next + |qs|
    ensures var mid := AfterAdd(db, org, order, qs, f);
      && mid.orders == db.orders && Where(mid.items, NotAmong(removal)) == db.items
      && forall it | it in mid.items && it.id in removal :: it.order == order
  {
    var added := NewItems(db.menu, org, order, db.next, qs, |qs|);
    assert AfterAdd(db, org, order, qs, f).items == db.items + added;
    FiledItems(db, org, order, qs);
    NewItemsGone(db.items, added, removal);
  }

  /** Whatever got lost on its way to the bill, the order itself is row for row what it was. */
  lemma OrderRestored(db: Db, org: Id, order: nat, qs: seq<ItemRequest>, f: OrderFaults, removal: seq<Id>, k: nat)
    requires Books(db) && AddError(db, org, order, qs, f).None? && db.orders[order].open
    requires forall id :: id in removal <==> db.next <= id < db.next + |qs|
    ensures var mid := AfterAdd(db, org, order, qs, f);
      var after := AfterRemoveAll(mid, org, order, removal);
      && Books(after) && after.items == db.items && after.orders == db.orders
      && |after.invoices| == |mid.invoices| && (k < |mid.invoices| ==> SameAmounts(after.invoices[k], mid.invoices[k]))
  {
    AddKeepsBooks(db, org, order, qs, f);
    AddedThenGone(db, org, order, qs, f, removal);
    RemoveAllEffect(AfterAdd(db, org, order, qs, f), org, order, removal, k);
  }

  /** Putting items on an order and taking exactly those off again, in any order: the order is what
      it was, row for row and so to the cent; the individual booking's bill has gone up by the price
      of those whose line was stored, and is what it was if and only if all of these were free. */
  lemma AddThenRemove(db: Db, org: Id, order: nat, qs: seq<ItemRequest>, f: OrderFaults, removal: seq<Id>, k: nat)
    requires Books(db) && AddError(db, org, order, qs, f).None? && db.orders[order].open
    requires forall id :: id in removal <==> db.next <= id < db.next + |qs|
    requires k < |db.invoices| && db.orders[order].booking.Some? && db.invoices[k].booking == db.orders[order].booking
    ensures var after := AfterRemoveAll(AfterAdd(db, org, order, qs, f), org, order, removal);
      && after.items == db.items && after.orders == db.orders && k < |after.invoices|
      && after.invoices[k].subtotal == db.invoices[k].subtotal + Price(db.menu, qs, f, |qs|)
      && (SameAmounts(after.invoices[k], db.invoices[k])
          <==> forall i | 0 <= i < |qs| :: Loses(f, i) || PriceOf(db.menu, qs[i]) == 0)
  {
    AddedToBill(db, org, order, qs, f, k);
    OrderRestored(db, org, order, qs, f, removal, k);
    ReachedPrice(db.menu, org, order, db.next, qs, f);
    FreeIffPriceZero(db.menu, qs, f, |qs|);
    var after := AfterRemoveAll(AfterAdd(db, org, order, qs, f), org, order, removal);
    assert InvoiceOk(db, db.invoices[k]) && InvoiceOk(after, after.invoices[k]);
    SubtotalDecides(after.invoices[k], db.invoices[k]);
  }

  lemma SubtotalDecides(a: Invoice, b: Invoice)
    requires Balanced(a) && Balanced(b) && a.rate == b.rate && a.booking == b.booking
    ensures SameAmounts(a, b) <==> a.subtotal == b.subtotal
  {}

  /** The search that bills an order of this booking ends at its own invoice, if it has one. */
  lemma BillTarget(db: Db, org: Id, b: Id, k: nat)
    requires Books(db) && InOrg(db.bookings, org, b) && k < |db.invoices| && db.invoices[k].booking.Some?
    ensures BillTo(db, org, b) == Some(k) <==> db.invoices[k].booking == Some(b)
  {
    assert InvoiceOk(db, db.invoices[k]);
    if db.invoices[k].booking == Some(b) {
      var j := FindOwn(db.invoices, b, org);
      assert j == Some(k);
    }
  }

  lemma OwnBillOfOrder(db: Db, org: Id, order: nat, k: nat)
    requires Books(db) && OrderKnown(db, org, order) && db.orders[order].booking.Some?
    requires k < |db.invoices| && db.invoices[k].booking == db.orders[order].booking
    ensures BillTo(db, org, db.orders[order].booking.value) == Some(k)
    ensures Balanced(db.invoices[k])
  {
    assert InvoiceOk(db, db.invoices[k]) && db.orders[order] in db.orders;
    BillTarget(db, org, db.orders[order].booking.value, k);
  }

  lemma {:induction false} SumOfLines(items: seq<Item>, b: Id)
    ensures SumLines(Each(items, AsLine(b))) == SumItems(items)
  {
    if items != [] {
      SumOfLines(items[..|items| - 1], b);
      assert Each(items, AsLine(b))[..|items| - 1] == Each(items[..|items| - 1], AsLine(b));
    }
  }

  lemma BilledAmounts(inv: Invoice, b: Id, its: seq<Item>)
    requires Balanced(inv)
    ensures var billed := AppendLines(inv, Each(its, AsLine(b)));
      billed.subtotal == inv.subtotal + SumItems(its) && billed.rate == inv.rate && billed.booking == inv.booking
  {
    AppendedLines(inv, Each(its, AsLine(b)));
    SumLinesConcat(inv.lines, Each(its, AsLine(b)));
    SumOfLines(its, b);
  }

  lemma AddedLines(db: Db, org: Id, order: nat, qs: seq<ItemRequest>, f: OrderFaults, k: nat)
    requires Books(db) && AddError(db, org, order, qs, f).None?
    requires k < |db.invoices| && db.orders[order].booking.Some? && db.invoices[k].booking == db.orders[order].booking
    ensures Balanced(db.invoices[k])
    ensures AfterAdd(db, org, order, qs, f).invoices == db.invoices[k := AppendLines(db.invoices[k],
      Each(Reached(NewItems(db.menu, org, order, db.next, qs, |qs|), f), AsLine(db.orders[order].booking.value)))]
  {
    OwnBillOfOrder(db, org, order, k);
    assert BillTo(WithItems(db, org, order, qs), org, db.orders[order].booking.value)
      == BillTo(db, org, db.orders[order].booking.value);
    assert db.invoices[k := db.invoices[k]] == db.invoices;
  }

  lemma AddedToBill(db: Db, org: Id, order: nat, qs: seq<ItemRequest>, f: OrderFaults, k: nat)
    requires Books(db) && AddError(db, org, order, qs, f).None?
    requires k < |db.invoices| && db.orders[order].booking.Some? && db.invoices[k].booking == db.orders[order].booking
    ensures var mid := AfterAdd(db, org, order, qs, f);
      && |mid.invoices| == |db.invoices|
      && mid.invoices[k].subtotal
           == db.invoices[k].subtotal + SumItems(Reached(NewItems(db.menu, org, order, db.next, qs, |qs|), f))
      && mid.invoices[k].rate == db.invoices[k].rate && mid.invoices[k].booking == db.invoices[k].booking
  {
    AddedLines(db, org, order, qs, f, k);
    BilledAmounts(db.invoices[k], db.orders[order].booking.value,
      Reached(NewItems(db.menu, org, order, db.next, qs, |qs|), f));
  }

  /** The price of the first n requests whose lines are stored. */
  function Price(menu: map<Id, MenuItem>, qs: seq<ItemRequest>, f: OrderFaults, n: nat): nat
    requires n <= |qs|
  { if n == 0 then 0 else Price(menu, qs, f, n - 1) + if Loses(f, n - 1) then 0 else PriceOf(menu, qs[n - 1]) }

  lemma {:induction false} BilledPrice(menu: map<Id, MenuItem>, org: Id, its: seq<Item>, qs: seq<ItemRequest>,
                                       f: OrderFaults, n: nat)
    requires n <= |qs| == |its| && !f.reread && !f.unread
    requires forall k | 0 <= k < |qs| :: its[k].subtotal == PriceOf(menu, qs[k])
    ensures SumItems(Billed(its, f.lost, n)) == Price(menu, qs, f, n)
  {
    if n > 0 {
      BilledPrice(menu, org, its, qs, f, n - 1);
      SumItemsConcat(Billed(its, f.lost, n - 1), if n - 1 in f.lost then [] else [its[n - 1]]);
      assert [its[n - 1]][..0] == [];
    }
  }

  lemma {:induction false} NothingBilled(menu: map<Id, MenuItem>, qs: seq<ItemRequest>, f: OrderFaults, n: nat)
    requires n <= |qs| && (f.reread || f.unread)
    ensures Price(menu, qs, f, n) == 0
  {
    if n > 0 { NothingBilled(menu, qs, f, n - 1); }
  }

  lemma ReachedPrice(menu: map<Id, MenuItem>, org: Id, order: nat, first: Id, qs: seq<ItemRequest>, f: OrderFaults)
    requires ItemsError(menu, org, qs, |qs|).None?
    ensures SumItems(Reached(NewItems(menu, org, order, first, qs, |qs|), f)) == Price(menu, qs, f, |qs|)
  {
    if f.reread || f.unread {
      NothingBilled(menu, qs, f, |qs|);
    } else {
      BilledPrice(menu, org, NewItems(menu, org, order, first, qs, |qs|), qs, f, |qs|);
    }
  }

  lemma {:induction false} FreeIffPriceZero(menu: map<Id, MenuItem>, qs: seq<ItemRequest>, f: OrderFaults, n: nat)
    requires n <= |qs|
    ensures Price(menu, qs, f, n) == 0 <==> forall k | 0 <= k < n :: Loses(f, k) || PriceOf(menu, qs[k]) == 0
  {
    if n > 0 { FreeIffPriceZero(menu, qs, f, n - 1); }
  }

  // ---------- the smallest case ----------

  const FAULTLESS := OrderFaults(false, false, false, {})

  /** One confirmed stay at 100.00 with one open, empty order, and a dinner at 25.00 on the menu. */
  function OneStay(): Db {
    Db(map[7 := Room(1, None, "double", 2, 10000, true)], map[], map[],
       map[2 := Booking(1, 7, 5, None, 100, 101, 1, Confirmed, false)], map[9 := MenuItem(1, 2500)],
       [Order(1, Some(2), true, 100)], [],
       [NewInvoice(1, 2026, NextNumber([], 2026), Some(2), None, Some(101), [RoomLine(None, 1, 10000)])], 10)
  }

  lemma OneStayInvoice()
    ensures InvoiceOk(OneStay(), OneStay().invoices[0]) && OneStay().invoices[0].total == 11600
  {
    OneRoomLine(RoomLine(None, 1, 10000));
  }

  lemma OneStayIsInOrder()
    ensures Books(OneStay()) && OneStay().invoices[0].total == 11600
  {
    OneStayInvoice();
    NewNumberCounts([], OneStay().invoices, Format, OneStay().invoices[0]);
  }

  /** The dinner is put on the order and taken off, nothing failing: the order is empty again, the
      bill has gone from 116.00 to 145.00, and stays there. */
  lemma RemovedDinnerStaysOnTheBill()
    ensures var dinner := [ItemRequest(9, 1)];
      var after := AfterRemoveAll(AfterAdd(OneStay(), 1, 0, dinner, FAULTLESS), 1, 0, [10]);
      && AddError(OneStay(), 1, 0, dinner, FAULTLESS).None?
      && after.items == [] && |after.invoices| == 1
      && OneStay().invoices[0].total == 11600 && after.invoices[0].subtotal == 12500 && after.invoices[0].total == 14500
  {
    var db, dinner := OneStay(), [ItemRequest(9, 1)];
    OneStayIsInOrder();
    assert ItemsError(db.menu, 1, dinner, 0).None?;
    AddThenRemove(db, 1, 0, dinner, FAULTLESS, [10], 0);
    assert Price(db.menu, dinner, FAULTLESS, 0) == 0;
    OrderRestored(db, 1, 0, dinner, FAULTLESS, [10], 0);
    AddedToBill(db, 1, 0, dinner, FAULTLESS, 0);
    var after := AfterRemoveAll(AfterAdd(db, 1, 0, dinner, FAULTLESS), 1, 0, [10]);
    assert InvoiceOk(after, after.invoices[0]);
  }
}
