/** The booking, order and invoice services and the nightly job, over one database. Reads and
    writes follow the Go statement order; a transaction works on local copies until it commits.
    What the database may refuse (a failed write, an uncommitted batch) comes in as a parameter. */
module Lodge {
  import opened Prelude
  import opened Schema
  import opened Reservations
  import opened Billing
  import opened LodgeSteps

  class Services {
    var rooms: map<Id, Room>
    var individuals: map<Id, Option<Id>>
    var companies: map<Id, Id>
    var bookings: map<Id, Booking>
    var menu: map<Id, MenuItem>
    var orders: seq<Order>
    var items: seq<Item>
    var invoices: seq<Invoice>
    var next: Id

    constructor (db: Db)
      ensures Tables() == db
    {
      rooms, individuals, companies, bookings := db.rooms, db.individuals, db.companies, db.bookings;
      menu, orders, items, invoices, next := db.menu, db.orders, db.items, db.invoices, db.next;
    }

    function Tables(): Db
      reads this
    { Db(rooms, individuals, companies, bookings, menu, orders, items, invoices, next) }

    method FreshId() returns (id: Id)
      modifies this`next
      ensures id == old(next) && next == id + 1
    {
      id := next;
      next := next + 1;
    }

    method InsertBooking(b: Booking) returns (id: Id)
      modifies this`next, this`bookings
      ensures id == old(next) && Tables() == WithBooking(old(Tables()), b)
    {
      id := FreshId();
      bookings := bookings[id := b];
    }

    // ---------- booking service ----------

    method CreateIndividual(org: Id, q: StayRequest, f: StayFaults) returns (err: Option<Error>)
      modifies this
      ensures err == IndividualError(old(Tables()), org, q, f)
      ensures Tables() == AfterIndividual(old(Tables()), org, q, f)
    {
      var client: Id;
      match q.client {
        case Existing(id) =>
          if !Known(individuals, id, org) { return Some(ClientNotFound); }
          client := id;
        case New(named) =>
          if !named { return Some(NameRequired); }
          if f.client { return Some(Database); }
          client := FreshId();
          individuals := individuals[client := Some(org)];
      }
      if q.room == 0 { return Some(RoomRequired); }
      if q.checkIn == 0 || q.checkOut == 0 { return Some(DatesRequired); }
      if !(q.checkOut > q.checkIn) { return Some(BadDates); }
      if q.guests <= 0 { return Some(BadGuests); }
      if q.room !in rooms || rooms[q.room].org != org { return Some(RoomNotFound); }
      if q.guests > rooms[q.room].capacity { return Some(OverCapacity); }
      if !RoomAvailable(bookings, q.room, q.checkIn, q.checkOut, None) { return Some(RoomUnavailable); }
      if HasActiveBookingForClient(bookings, client, q.room, q.checkIn, q.checkOut) { return Some(DuplicateClient); }
      if f.booking { return Some(Database); }
      var _ := InsertBooking(Booking(org, q.room, client, None, q.checkIn, q.checkOut, q.guests, Pending, false));
      return None;
    }

    method GuestCreate(profile: Option<Id>, q: StayRequest, f: GuestFaults) returns (err: Option<Error>)
      modifies this
      ensures err == GuestError(old(Tables()), profile, q, f)
      ensures Tables() == AfterGuest(old(Tables()), profile, q, f)
    {
      if profile.None? || profile.value !in individuals { return Some(ProfileRefused); }
      if q.room !in rooms { return Some(RoomNotFound); }
      var room := rooms[q.room];
      if q.guests > room.capacity { return Some(OverCapacity); }
      if q.checkOut < q.checkIn || q.checkOut == q.checkIn { return Some(BadDates); }
      if !RoomAvailable(bookings, q.room, q.checkIn, q.checkOut, None) { return Some(RoomUnavailable); }
      if q.guests <= 0 || f.booking { return Some(RowRejected); }
      var _ := InsertBooking(
        Booking(room.org, q.room, profile.value, None, q.checkIn, q.checkOut, q.guests, Pending, false));
      if !f.stamp { individuals := individuals[profile.value := Some(room.org)]; }
      return None;
    }

    method CheckFields(gs: seq<GuestRequest>) returns (err: Option<Error>)
      ensures err == BatchFields(gs, |gs|)
    {
      for i := 0 to |gs|
        invariant BatchFields(gs, i).None?
      {
        var g := gs[i];
        var e: Option<Error> := None;
        if g.room == 0 { e := Some(RoomRequired); }
        else if g.checkIn == 0 || g.checkOut == 0 { e := Some(DatesRequired); }
        else if !(g.checkOut > g.checkIn) { e := Some(BadDates); }
        else if g.client.New? && !g.client.named { e := Some(NameRequired); }
        if e.Some? {
          FirstErrorSticks(gs, i + 1, |gs|, (i: nat, g) => FieldError(g));
          return Some(GuestRefused(i, e.value));
        }
      }
      return None;
    }

    /** Each guest against the stored rows only. */
    method CheckPlaces(org: Id, gs: seq<GuestRequest>) returns (err: Option<Error>)
      ensures err == BatchPlaces(Tables(), org, gs, |gs|)
    {
      ghost var db := Tables();
      for i := 0 to |gs|
        invariant BatchPlaces(db, org, gs, i).None?
      {
        var g := gs[i];
        var e: Option<Error> := None;
        if g.room !in rooms || rooms[g.room].org != org { e := Some(RoomNotFound); }
        else if rooms[g.room].capacity < 1 { e := Some(OverCapacity); }
        else if !RoomAvailable(bookings, g.room, g.checkIn, g.checkOut, None) { e := Some(RoomUnavailable); }
        if e.Some? {
          FirstErrorSticks(gs, i + 1, |gs|, (i: nat, g) => PlaceError(db, org, g));
          return Some(GuestRefused(i, e.value));
        }
      }
      return None;
    }

    /** The inserts of the transaction, on its private copy of the tables. */
    method SaveGuests(start: Db, org: Id, company: Id, gs: seq<GuestRequest>, at: nat)
      returns (err: Option<Error>, tx: Db, ids: seq<Id>)
      ensures err == BatchSaves(Tables(), org, gs, |gs|, at)
      ensures err.None? ==> tx == WithGuests(start, org, company, gs, |gs|)
      ensures err.None? ==> ids == GuestIds(start, org, company, gs, |gs|)
    {
      ghost var db := Tables();
      tx, ids := start, [];
      for i := 0 to |gs|
        invariant BatchSaves(db, org, gs, i, at).None?
        invariant tx == WithGuests(start, org, company, gs, i)
        invariant ids == GuestIds(start, org, company, gs, i)
      {
        var g := gs[i];
        var client: Id;
        if g.client.Existing? {
          if !Known(individuals, g.client.id, org) {
            FirstErrorSticks(gs, i + 1, |gs|, (i: nat, g) => SaveError(db, org, g, i, at));
            return Some(GuestRefused(i, ClientNotFound)), start, [];
          }
          client := g.client.id;
        } else {
          client := tx.next;
          tx := tx.(individuals := tx.individuals[client := Some(org)], next := client + 1);
        }
        if i == at {
          FirstErrorSticks(gs, i + 1, |gs|, (i: nat, g) => SaveError(db, org, g, i, at));
          return Some(GuestRefused(i, Database)), start, [];
        }
        var b := Booking(org, g.room, client, Some(company), g.checkIn, g.checkOut, 1, Pending, false);
        ids := ids + [tx.next];
        tx := tx.(bookings := tx.bookings[tx.next := b], next := tx.next + 1);
      }
      err := None;
    }

    /** The company the batch is for, stored or new, in the transaction's copy. */
    method ResolveCompany(org: Id, company: ClientRef, refused: bool) returns (err: Option<Error>, id: Id, tx: Db)
      ensures err == CompanyError(Tables(), org, company, refused)
      ensures err.None? ==> id == ClientId(Tables(), company) && tx == WithCompany(Tables(), org, company)
    {
      err, id, tx := None, 0, Tables();
      match company {
        case Existing(known) =>
          if !(known in companies && companies[known] == org) { err := Some(CompanyNotFound); }
          id := known;
        case New(named) =>
          if !named { err := Some(CompanyNameRequired); }
          else if refused { err := Some(Database); }
          id := tx.next;
          tx := tx.(companies := tx.companies[id := org], next := id + 1);
      }
    }

    method SaveBatch(org: Id, q: BatchRequest, f: BatchFaults) returns (err: Option<Error>, company: Id, ids: seq<Id>)
      modifies this
      ensures err == BatchRolledBack(old(Tables()), org, q, f)
      ensures Tables() == if err.Some? then old(Tables()) else WithBatch(old(Tables()), org, q)
      ensures err.None? ==> company == ClientId(old(Tables()), q.company) && ids == BatchIds(old(Tables()), org, q)
    {
      var tx;
      ids := [];
      err, company, tx := ResolveCompany(org, q.company, f.company);
      if err.Some? { return; }
      OnlyNewRows(tx, org, company, q.guests, |q.guests|);
      err, tx, ids := SaveGuests(tx, org, company, q.guests, f.at);
      if err.Some? { return; }
      if f.at == |q.guests| { return Some(Database), 0, []; }
      individuals, companies, bookings, next := tx.individuals, tx.companies, tx.bookings, tx.next; // commit
    }

    method CreateCorporate(org: Id, q: BatchRequest, year: nat, f: BatchFaults, g: InvoiceFaults)
      returns (err: Option<Error>)
      modifies this
      ensures err == BatchError(old(Tables()), org, q, f)
      ensures Tables() == AfterCorporate(old(Tables()), org, q, year, f, g)
    {
      if |q.guests| == 0 { return Some(NoGuests); }
      err := CheckFields(q.guests);
      if err.Some? { return; }
      err := CheckPlaces(org, q.guests);
      if err.Some? { return; }
      var company, ids;
      err, company, ids := SaveBatch(org, q, f);
      if err.Some? { return; }
      GenerateCorporateInvoice(org, company, ids, year, g);
    }

    /** The edited row, before it is written. */
    method CheckEdit(org: Id, id: Id, e: Edit) returns (err: Option<Error>, b: Booking)
      requires id in bookings
      ensures err == UpdateError(bookings, org, id, e)
      ensures b == Edited(bookings[id], e)
    {
      b := bookings[id];
      if e.checkIn.Some? { b := b.(checkIn := e.checkIn.value); }
      if e.checkOut.Some? { b := b.(checkOut := e.checkOut.value); }
      if e.guests.Some? { b := b.(guests := e.guests.value); }
      var status := bookings[id].status;
      err := None;
      if bookings[id].org != org { err := Some(BookingNotFound); }
      else if status != CheckedIn && status != Confirmed && status != Pending { err := Some(NotEditable); }
      else if !(b.checkOut > b.checkIn) { err := Some(BadDates); }
      else if b.guests <= 0 { err := Some(BadGuests); }
      else if !RoomAvailable(bookings, b.room, b.checkIn, b.checkOut, Some(id)) { err := Some(RoomUnavailable); }
    }

    method Update(org: Id, id: Id, e: Edit, today: int, f: EditFaults) returns (err: Option<Error>)
      modifies this
      ensures err == Unwritten(UpdateError(old(bookings), org, id, e), f.write)
      ensures Tables() == AfterUpdate(old(Tables()), org, id, e, today, f)
    {
      if id !in bookings { return Some(BookingNotFound); }
      var b;
      err, b := CheckEdit(org, id, e);
      if err.Some? { return; }
      if f.write { return Some(Database); }
      bookings := bookings[id := b];
      if e.checkIn.Some? || e.checkOut.Some? { RecalculateRoomCharge(org, id, today, f.recharge); }
    }

    method SetStatus(id: Id, org: Id, to: Status) returns (found: bool)
      modifies this`bookings
      ensures found == InOrg(old(bookings), org, id)
      ensures bookings == if found then Restated(old(bookings), id, to) else old(bookings)
    {
      found := InOrg(bookings, org, id);
      if found { bookings := bookings[id := bookings[id].(status := to)]; }
    }

    method MayMove(from: Status, to: Status) returns (valid: bool)
      ensures valid <==> to in Transitions(from)
    {
      var allowed := Transitions(from);
      valid := false;
      for i := 0 to |allowed|
        invariant !valid && to !in allowed[..i]
      {
        if allowed[i] == to { return true; }
      }
    }

    method UpdateStatus(org: Id, id: Id, to: Status, year: nat, f: StatusFaults) returns (err: Option<Error>)
      modifies this
      ensures err == Unwritten(StatusError(old(bookings), org, id, to), f.write)
      ensures Tables() == AfterStatus(old(Tables()), org, id, to, year, f)
    {
      if !InOrg(bookings, org, id) { return Some(BookingNotFound); }
      var b := bookings[id];
      var valid := MayMove(b.status, to);
      if !valid { return Some(BadTransition); }
      if f.write { return Some(Database); }
      var _ := SetStatus(id, org, to);
      if to == Confirmed && b.company.None? { GenerateForBooking(org, id, year, f.invoice); }
      return None;
    }

    method GuestCancel(client: Id, id: Id) returns (err: Option<Error>)
      modifies this
      ensures err == CancelError(old(Tables()), client, id)
      ensures Tables() == AfterCancel(old(Tables()), client, id)
    {
      if id !in bookings { return Some(BookingNotFound); }
      var b := bookings[id];
      if b.client != client { return Some(Forbidden); }
      var canCancel := MayMove(b.status, Cancelled);
      if !canCancel { return Some(BadTransition); }
      var org := 0;
      if b.room in rooms { org := rooms[b.room].org; }
      var found := SetStatus(id, org, Cancelled);
      return if found then None else Some(BookingNotFound);
    }

    method Delete(org: Id, id: Id) returns (err: Option<Error>)
      modifies this
      ensures err == DeleteError(old(Tables()), org, id)
      ensures Tables() == AfterDelete(old(Tables()), org, id)
    {
      if !InOrg(bookings, org, id) { return Some(BookingNotFound); }
      if bookings[id].status == CheckedIn { return Some(CheckedInCannotGo); }
      if exists inv | inv in invoices :: inv.booking == Some(id) { return Some(StillInvoiced); }
      bookings := bookings - {id};
      orders := Each(orders, Detached(id));
      invoices := Each(invoices, LinesDetached(id));
      return None;
    }

    /** UpdateEntityStatus, called by the workflow engine. */
    method ApplyOutcome(org: Id, id: Id, approved: bool) returns (found: bool)
      modifies this
      ensures found == InOrg(old(bookings), org, id)
      ensures Tables() == old(Tables()).(bookings := OutcomeApplied(old(bookings), org, id, approved))
    {
      found := SetStatus(id, org, if approved then Confirmed else Cancelled);
    }

    // ---------- the nightly job ----------

    method FindOverdueCheckouts(orgs: set<Id>, today: int) returns (refs: seq<Id>)
      ensures Members(refs) == Overdue(bookings, orgs, today)
      ensures forall j, k | 0 <= j < k < |refs| :: refs[j] != refs[k]
    {
      var rows := set i | i in bookings && IsOverdue(bookings[i], orgs, today);
      refs := [];
      while rows != {}
        invariant rows !! Members(refs)
        invariant rows + Members(refs) == Overdue(bookings, orgs, today)
        invariant forall j, k | 0 <= j < k < |refs| :: refs[j] != refs[k]
      {
        var row :| row in rows;
        assert Members(refs + [row]) == Members(refs) + {row};
        rows, refs := rows - {row}, refs + [row];
      }
    }

    method ExtendOne(id: Id, today: int, mark: bool, redate: bool)
      requires id in bookings
      modifies this`bookings, this`invoices
      ensures bookings == old(bookings)[id :=
        old(bookings)[id].(checkOut := today, overstayed := old(bookings)[id].overstayed || mark)]
      ensures |invoices| == |old(invoices)|
      ensures forall k | 0 <= k < |invoices| ::
        invoices[k] == Moved(old(invoices)[k], id, old(bookings)[id].org, redate, today)
    {
      var org := bookings[id].org;
      bookings := bookings[id := bookings[id].(checkOut := today)];
      if mark { bookings := bookings[id := bookings[id].(overstayed := true)]; }
      if redate { UpdateDueDate(id, org, today); }
    }

    static ghost function Moved(inv: Invoice, id: Id, org: Id, redate: bool, today: int): Invoice {
      if redate && inv.booking == Some(id) && inv.org == org then inv.(due := Some(today)) else inv
    }

    /** The tables of `db` with the stays in `done` extended. */
    static ghost predicate Extended(db: Db, done: set<Id>, faults: JobFaults, today: int,
                                    bs: map<Id, Booking>, invs: seq<Invoice>) {
      bs == Stretched(db.bookings, done, done - faults.mark, today)
      && invs == Each(db.invoices, Redated(db.bookings, done - faults.due, today))
    }

    static lemma NoneExtended(db: Db, faults: JobFaults, today: int)
      ensures Extended(db, {}, faults, today, db.bookings, db.invoices)
    {}

    static lemma OneMoreExtended(db: Db, done: set<Id>, id: Id, faults: JobFaults, today: int,
                                 bs: map<Id, Booking>, before: seq<Invoice>, after: seq<Invoice>)
      requires id in db.bookings && id !in done && Extended(db, done, faults, today, bs, before)
      requires |after| == |before|
      requires forall k | 0 <= k < |after| :: after[k] == Moved(before[k], id, bs[id].org, id !in faults.due, today)
      ensures Extended(db, done + {id}, faults, today,
        bs[id := bs[id].(checkOut := today, overstayed := bs[id].overstayed || id !in faults.mark)], after)
    {}

    method RunOverdueJob(orgs: set<Id>, today: int, faults: JobFaults) returns (extended: nat)
      modifies this
      ensures Tables() == AfterOverdue(old(Tables()), orgs, today, faults)
      ensures extended == |Overdue(old(bookings), orgs, today) - faults.extend|
    {
      var refs := FindOverdueCheckouts(orgs, today);
      extended := ExtendAll(refs, today, faults);
    }

    method ExtendAll(refs: seq<Id>, today: int, faults: JobFaults) returns (extended: nat)
      requires Members(refs) <= bookings.Keys
      requires forall j, k | 0 <= j < k < |refs| :: refs[j] != refs[k]
      modifies this`bookings, this`invoices
      ensures Extended(old(Tables()), Members(refs) - faults.extend, faults, today, bookings, invoices)
      ensures extended == |Members(refs) - faults.extend|
    {
      ghost var db := Tables();
      ghost var done: set<Id> := {};
      extended := 0;
      NoneExtended(db, faults, today);
      for k := 0 to |refs|
        invariant done == Members(refs[..k]) - faults.extend
        invariant Extended(db, done, faults, today, bookings, invoices)
        invariant extended == |done|
      {
        var id := refs[k];
        assert id in Members(refs);
        MembersOneMore(refs, k);
        assert id !in refs[..k];
        if id in faults.extend { continue; }
        ghost var bs, before := bookings, invoices;
        ExtendOne(id, today, id !in faults.mark, id !in faults.due);
        extended := extended + 1;
        OneMoreExtended(db, done, id, faults, today, bs, before, invoices);
        done := done + {id};
      }
      assert refs[..|refs|] == refs;
    }

    method UpdateDueDate(booking: Id, org: Id, due: int)
      modifies this`invoices
      ensures |invoices| == |old(invoices)|
      ensures forall k | 0 <= k < |invoices| && old(invoices)[k].booking == Some(booking)
        && old(invoices)[k].org == org ::
        invoices[k] == old(invoices)[k].(due := Some(due))
      ensures forall k | 0 <= k < |invoices| && !(old(invoices)[k].booking == Some(booking)
        && old(invoices)[k].org == org) ::
        invoices[k] == old(invoices)[k]
    {
      invoices := Each(invoices, (inv: Invoice) =>
        if inv.booking == Some(booking) && inv.org == org then inv.(due := Some(due)) else inv);
    }

    // ---------- invoice service ----------

    method InsertInvoice(inv: Invoice)
      modifies this`invoices
      ensures invoices == Inserted(old(invoices), inv)
    {
      if forall other | other in invoices ::
               other.number != inv.number && (inv.booking.Some? ==> other.booking != inv.booking) {
        invoices := invoices + [inv];
      }
    }

    method GenerateForBooking(org: Id, booking: Id, year: nat, f: InvoiceFaults)
      modifies this`invoices
      ensures Tables() == AfterGenerate(old(Tables()), org, booking, year, f)
    {
      if !f.lookup && FindOwn(invoices, booking, org).Some? { return; }
      if 0 in f.unread || !InOrg(bookings, org, booking) { return; }
      var b := bookings[booking];
      if b.room !in rooms || rooms[b.room].org != org { return; }
      var nights: nat := if b.checkOut - b.checkIn < 1 then 1 else b.checkOut - b.checkIn;
      var roomTotal := nights * rooms[b.room].price;
      var tax := HalfUp(roomTotal * TAX_RATE);
      var total := roomTotal + tax;
      if f.lost { return; }
      var number := NextNumber(invoices, year);
      var line := Line(None, None, None, nights, rooms[b.room].price, roomTotal);
      assert SumLines([line]) == roomTotal by { assert [line][..0] == []; }
      var inv := Invoice(
        org, year, number, Some(booking), None, TAX_RATE, roomTotal, tax, total, Some(b.checkOut), [line]);
      assert inv == NewInvoice(org, year, number, Some(booking), None, Some(b.checkOut), [line]);
      InsertInvoice(inv);
    }

    /** The accumulating loop; a booking that cannot be read is passed over. */
    method GatherLines(org: Id, ids: seq<Id>, unread: set<nat>) returns (lines: seq<Line>, subtotal: nat)
      ensures lines == CompanyLines(Tables(), org, ids, |ids|, unread)
      ensures subtotal == SumLines(lines)
    {
      lines, subtotal := [], 0;
      for i := 0 to |ids|
        invariant lines == CompanyLines(Tables(), org, ids, i, unread) && subtotal == SumLines(lines)
      {
        var id := ids[i];
        if i in unread || !InOrg(bookings, org, id) { continue; }
        var b := bookings[id];
        if b.room !in rooms || rooms[b.room].org != org { continue; }
        var nights: nat := if b.checkOut - b.checkIn < 1 then 1 else b.checkOut - b.checkIn;
        var roomTotal := nights * rooms[b.room].price;
        subtotal := subtotal + roomTotal;
        lines := lines + [Line(Some(id), None, None, nights, rooms[b.room].price, roomTotal)];
      }
    }

    method GenerateCorporateInvoice(org: Id, company: Id, ids: seq<Id>, year: nat, f: InvoiceFaults)
      modifies this`invoices
      ensures Tables() == AfterGenerateCompany(old(Tables()), org, company, ids, year, f)
    {
      if !f.lookup && FindCompany(invoices, company, org).Some? { return; }
      var lines, subtotal := GatherLines(org, ids, f.unread);
      if |lines| == 0 { return; }
      var tax := HalfUp(subtotal * TAX_RATE);
      var total := subtotal + tax;
      if f.lost { return; }
      var number := NextNumber(invoices, year);
      var inv := Invoice(org, year, number, None, Some(company), TAX_RATE, subtotal, tax, total, None, lines);
      assert inv == NewInvoice(org, year, number, None, Some(company), None, lines);
      InsertInvoice(inv);
    }

    method RecalculateRoomCharge(org: Id, booking: Id, today: int, lost: bool)
      modifies this`invoices
      ensures Tables() == AfterRecharge(old(Tables()), org, booking, today, lost)
    {
      if lost || !InOrg(bookings, org, booking) { return; }
      var b := bookings[booking];
      if b.room !in rooms || rooms[b.room].org != org { return; }
      var nights: nat := if b.checkOut - b.checkIn < 1 then 1 else b.checkOut - b.checkIn;
      var k := FindOwn(invoices, booking, org);
      if k.None? { return; }
      var inv := invoices[k.value];
      inv := inv.(lines := Each(inv.lines, Recharged(nights, rooms[b.room].price)));
      inv := Recalculated(inv).(due := Some(today));
      invoices := invoices[k.value := inv];
    }

    // ---------- order service ----------

    method InsertItems(org: Id, order: nat, qs: seq<ItemRequest>, f: OrderFaults)
      returns (err: Option<OrderError>, stored: seq<Item>)
      modifies this`items, this`next
      ensures err == StoreError(Tables(), org, qs, f)
      ensures err.Some? ==> Tables() == old(Tables())
      ensures err.None? ==> Tables() == WithItems(old(Tables()), org, order, qs)
      ensures err.None? ==> stored == NewItems(menu, org, order, old(next), qs, |qs|)
    {
      var txNext := next;
      stored := [];
      for i := 0 to |qs|
        invariant Tables() == old(Tables())
        invariant ItemsError(menu, org, qs, i).None?
        invariant stored == NewItems(menu, org, order, next, qs, i) && txNext == next + i
      {
        var q := qs[i];
        if q.menuItem !in menu || menu[q.menuItem].org != org {
          ItemsErrorSticks(menu, org, qs, i + 1, |qs|);
          return Some(MenuItemMissing(i)), [];
        }
        if q.quantity <= 0 {
          ItemsErrorSticks(menu, org, qs, i + 1, |qs|);
          return Some(BadQuantity(i)), [];
        }
        var price := menu[q.menuItem].price;
        stored := stored + [Item(txNext, order, q.quantity, price, price * q.quantity)];
        txNext := txNext + 1;
      }
      if f.write { return Some(NotStored), []; }
      items, next := items + stored, txNext; // commit
      err := None;
    }

    /** What cannot be read or stored is reported and passed over. */
    method AppendToInvoice(org: Id, booking: Option<Id>, its: seq<Item>, f: OrderFaults)
      modifies this`invoices
      ensures Tables() == AfterBilling(old(Tables()), org, booking, its, f)
    {
      if booking.None? { return; }
      var id := booking.value;
      if f.unread || !InOrg(bookings, org, id) { return; }
      var b := bookings[id];
      var k := if b.company.Some? then FindCompany(invoices, b.company.value, org) else FindOwn(invoices, id, org);
      if k.None? { return; }
      BillItems(k.value, id, its, f.lost);
    }

    /** AppendOrderLineItem: a line, then the amounts again. */
    method AppendOrderLineItem(k: nat, line: Line)
      requires k < |invoices|
      modifies this`invoices
      ensures invoices == old(invoices)[k := AppendLine(old(invoices)[k], line)]
    {
      var inv := invoices[k];
      inv := inv.(lines := inv.lines + [line]);
      invoices := invoices[k := Recalculated(inv)];
    }

    method BillItems(k: nat, booking: Id, its: seq<Item>, lost: set<nat>)
      requires k < |invoices|
      modifies this`invoices
      ensures invoices == old(invoices)[k :=
        AppendLines(old(invoices)[k], Each(Billed(its, lost, |its|), AsLine(booking)))]
    {
      ghost var start := invoices;
      ghost var billed: seq<Item>, bill := [], start[k];
      for i := 0 to |its|
        invariant billed == Billed(its, lost, i) && bill == AppendLines(start[k], Each(billed, AsLine(booking)))
        invariant invoices == start[k := bill]
      {
        if i in lost { continue; }
        var it := its[i];
        var line := Line(Some(booking), Some(it.order), Some(it.id), it.quantity, it.unitPrice, it.subtotal);
        AppendOrderLineItem(k, line);
        BillOneMore(start[k], billed, it, booking);
        billed, bill := billed + [it], AppendLine(bill, line);
      }
    }

    method PlaceOrder(org: Id, booking: Id, qs: seq<ItemRequest>, today: int, f: OrderFaults)
      returns (err: Option<OrderError>)
      modifies this
      ensures err == Answer(PlaceOrderError(old(Tables()), org, booking, qs, f), f)
      ensures Tables() == AfterPlace(old(Tables()), org, booking, qs, today, f)
    {
      if |qs| == 0 { return Some(NoItems); }
      if !InOrg(bookings, org, booking) { return Some(NoSuchBooking); }
      var b := bookings[booking];
      if b.status != Confirmed && b.status != CheckedIn { return Some(NotOrderable); }
      var stored;
      err, stored := InsertItems(org, |orders|, qs, f);
      if err.Some? { return; }
      orders := orders + [Order(org, Some(booking), true, today)];
      if f.reread { return Some(NotReread); }
      AppendToInvoice(org, Some(booking), stored, f);
    }

    method PlaceWalkIn(org: Id, qs: seq<ItemRequest>, today: int, f: OrderFaults) returns (err: Option<OrderError>)
      modifies this
      ensures err == Answer(WalkInError(old(Tables()), org, qs, f), f)
      ensures Tables() == AfterWalkIn(old(Tables()), org, qs, today, f)
    {
      if |qs| == 0 { return Some(NoItems); }
      var stored;
      err, stored := InsertItems(org, |orders|, qs, f);
      if err.Some? { return; }
      orders := orders + [Order(org, None, true, today)];
      if f.reread { return Some(NotReread); }
    }

    method AddItems(org: Id, order: nat, qs: seq<ItemRequest>, f: OrderFaults) returns (err: Option<OrderError>)
      modifies this
      ensures err == Answer(AddError(old(Tables()), org, order, qs, f), f)
      ensures Tables() == AfterAdd(old(Tables()), org, order, qs, f)
    {
      if |qs| == 0 { return Some(NoItems); }
      if !(order < |orders| && orders[order].org == org) { return Some(OrderNotFound); }
      var stored;
      err, stored := InsertItems(org, order, qs, f);
      if err.Some? { return; }
      if f.reread { return Some(NotReread); }
      AppendToInvoice(org, orders[order].booking, stored, f);
    }

    method RemoveItem(org: Id, order: nat, item: Id) returns (err: Option<OrderError>)
      modifies this
      ensures err == RemoveError(old(Tables()), org, order, item)
      ensures Tables() == AfterRemove(old(Tables()), org, order, item)
    {
      if !(order < |orders| && orders[order].org == org) { return Some(OrderNotFound); }
      if !orders[order].open { return Some(OrderClosed); }
      if !exists it | it in items :: it.id == item && it.order == order { return Some(ItemNotFound); }
      // the DELETE, and what the foreign key of invoice_line_items does with it
      items := Where(items, OtherThan(item));
      invoices := Each(invoices, (inv: Invoice) => Unlink(inv, item));
      if orders[order].booking.Some? { RemoveOrderLineItem(org, orders[order].booking.value, item); }
      return None;
    }

    method RemoveOrderLineItem(org: Id, booking: Id, item: Id)
      modifies this`invoices
      ensures Tables() == AfterRemoveLine(old(Tables()), org, Some(booking), item)
    {
      var k := FindOwn(invoices, booking, org);
      if k.None? { return; }
      var inv := invoices[k.value];
      inv := inv.(lines := Where(inv.lines, NotFor(item)));
      invoices := invoices[k.value := Recalculated(inv)];
    }

    method CloseAllOrders(org: Id, today: int) returns (count: nat)
      modifies this`orders
      ensures Tables() == AfterClose(old(Tables()), org, today)
      ensures count == |set k | 0 <= k < |orders| && orders[k] != old(orders)[k]|
    {
      ghost var closed: set<nat> := {};
      count := 0;
      for k := 0 to |orders|
        invariant |orders| == |old(orders)|
        invariant forall j | 0 <= j < k :: orders[j] == ClosedFor(org, today)(old(orders)[j])
        invariant forall j | k <= j < |orders| :: orders[j] == old(orders)[j]
        invariant count == |closed| && forall j :: j in closed <==> 0 <= j < k && orders[j] != old(orders)[j]
      {
        if orders[k].org == org && orders[k].open && orders[k].createdDay <= today {
          orders := orders[k := orders[k].(open := false)];
          count := count + 1;
          closed := closed + {k};
        }
      }
      assert closed == set k | 0 <= k < |orders| && orders[k] != old(orders)[k];
    }
  }
}
