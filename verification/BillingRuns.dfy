/** What every call keeps of the books, whatever fails in it. */
module BillingRuns {
  import opened Prelude
  import opened Schema
  import opened Reservations
  import opened Billing
  import opened InvoiceNumbers
  import opened LodgeSteps
  import opened BookingRuns

  /** Orders point at bookings of their organisation that have left `pending`, items at orders, and
      bookings at rooms of their organisation. */
  ghost predicate Filed(db: Db) {
    && (forall o | o in db.orders && o.booking.Some? ::
          InOrg(db.bookings, o.org, o.booking.value) && db.bookings[o.booking.value].status != Pending)
    && (forall it | it in db.items :: it.order < |db.orders| && it.id < db.next)
    && (forall i | i in db.bookings :: RoomKnown(db, db.bookings[i].org, db.bookings[i].room))
  }

  /** An individual stay's own invoice. */
  ghost predicate OwnOk(db: Db, inv: Invoice, b: Id) {
    && inv.company.None? && InOrg(db.bookings, inv.org, b) && db.bookings[b].company.None?
    && |Where(inv.lines, IsRoom)| == 1
  }

  ghost predicate InvoiceOk(db: Db, inv: Invoice) {
    && Balanced(inv)
    && (forall l | l in inv.lines && l.orderItem.Some? :: l.order.Some? && l.orderItem.value < db.next)
    && (inv.booking.Some? ==> OwnOk(db, inv, inv.booking.value))
  }

  ghost predicate OnePerBooking(invs: seq<Invoice>) {
    forall j, k | 0 <= j < k < |invs| && invs[j].booking.Some? :: invs[j].booking != invs[k].booking
  }

  /** The k-th invoice, n-th of its year, carries what is printed for n of that year. */
  ghost predicate Carries(invs: seq<Invoice>, printed: (nat, nat) -> string, k: nat)
    requires k < |invs|
  { invs[k].number == printed(invs[k].year, CountYear(invs, invs[k].year, k) + 1) }

  ghost predicate CountedAs(invs: seq<Invoice>, printed: (nat, nat) -> string) {
    forall k | 0 <= k < |invs| :: Carries(invs, printed, k)
  }

  ghost predicate Counted(invs: seq<Invoice>) { CountedAs(invs, Format) }

  /** What every reachable database satisfies: the amounts add up, no booking has two invoices, the
      numbers are in sequence, and rows point at rows that exist. */
  ghost predicate Books(db: Db) {
    && Numbered(db) && Filed(db)
    && (forall k | 0 <= k < |db.invoices| :: InvoiceOk(db, db.invoices[k]))
    && OnePerBooking(db.invoices) && Counted(db.invoices)
  }

  // ---------- what the books say ----------

  lemma {:induction false} CountYearGrows(invs: seq<Invoice>, year: nat, j: nat, k: nat)
    requires j <= k <= |invs|
    ensures CountYear(invs, year, j) <= CountYear(invs, year, k)
  {
    if j < k { CountYearGrows(invs, year, j, k - 1); }
  }

  /** The next number of a year is never in use. */
  lemma NextNumberIsFree(invs: seq<Invoice>, year: nat, k: nat)
    requires Counted(invs) && k < |invs|
    ensures invs[k].number != NextNumber(invs, year)
  {
    CountYearGrows(invs, year, k + 1, |invs|);
    assert Carries(invs, Format, k);
    FormatIsInjective(invs[k].year, CountYear(invs, invs[k].year, k) + 1, year, CountYear(invs, year, |invs|) + 1);
  }

  lemma LaterCountsMore(invs: seq<Invoice>, j: nat, k: nat)
    requires j < k < |invs| && invs[j].year == invs[k].year
    ensures CountYear(invs, invs[j].year, j) < CountYear(invs, invs[k].year, k)
  {
    CountYearGrows(invs, invs[k].year, j + 1, k);
  }

  lemma NumbersNeverRepeat(invs: seq<Invoice>, j: nat, k: nat)
    requires Counted(invs) && j < k < |invs|
    ensures invs[j].number != invs[k].number
  {
    forall y: nat, n: nat, y': nat, n': nat ensures Format(y, n) == Format(y', n') <==> y == y' && n == n' {
      FormatIsInjective(y, n, y', n');
    }
    NumbersDiffer(invs, Format, j, k);
  }

  lemma NumbersDiffer(invs: seq<Invoice>, printed: (nat, nat) -> string, j: nat, k: nat)
    requires forall y, n, y', n' :: printed(y, n) == printed(y', n') <==> y == y' && n == n'
    requires CountedAs(invs, printed) && j < k < |invs|
    ensures invs[j].number != invs[k].number
  {
    assert Carries(invs, printed, j) && Carries(invs, printed, k);
    if invs[j].year == invs[k].year { LaterCountsMore(invs, j, k); }
  }

  /** Nothing skipped either: every number from 1 to the year's count was issued. */
  lemma {:induction false} NumbersAreGapless(invs: seq<Invoice>, year: nat, n: nat, m: nat)
    requires Counted(invs) && m <= |invs| && 1 <= n <= CountYear(invs, year, m)
    ensures exists k | 0 <= k < m :: invs[k].year == year && invs[k].number == Format(year, n)
  {
    if invs[m - 1].year == year && CountYear(invs, year, m) == n {
      assert Carries(invs, Format, m - 1);
    } else {
      NumbersAreGapless(invs, year, n, m - 1);
    }
  }

  // ---------- keeping the books: invoice by invoice ----------

  /** The columns no later statement touches. */
  ghost predicate SameHead(a: Invoice, b: Invoice) {
    a.booking == b.booking && a.company == b.company && a.org == b.org && a.year == b.year && a.number == b.number
  }

  ghost predicate SameHeads(a: seq<Invoice>, b: seq<Invoice>) {
    |a| == |b| && forall k | 0 <= k < |a| :: SameHead(a[k], b[k])
  }

  lemma {:induction false} HeadsCount(a: seq<Invoice>, b: seq<Invoice>, year: nat, n: nat)
    requires n <= |a| && n <= |b| && forall k | 0 <= k < n :: a[k].year == b[k].year
    ensures CountYear(a, year, n) == CountYear(b, year, n)
  {
    if n > 0 { HeadsCount(a, b, year, n - 1); }
  }

  lemma HeadsNumber(a: seq<Invoice>, b: seq<Invoice>, printed: (nat, nat) -> string)
    requires SameHeads(a, b) && CountedAs(a, printed)
    ensures CountedAs(b, printed)
  {
    forall k | 0 <= k < |b| ensures Carries(b, printed, k) {
      assert SameHead(a[k], b[k]) && Carries(a, printed, k);
      HeadsCount(a, b, b[k].year, k);
    }
  }

  lemma HeadsDecide(a: seq<Invoice>, b: seq<Invoice>)
    requires SameHeads(a, b) && OnePerBooking(a) && Counted(a)
    ensures OnePerBooking(b) && Counted(b)
  {
    HeadsNumber(a, b, Format);
    forall j, k | 0 <= j < k < |b| && b[j].booking.Some? ensures b[j].booking != b[k].booking {
      assert SameHead(a[j], b[j]) && SameHead(a[k], b[k]);
    }
  }

  /** The books after a call, put together from their parts. */
  lemma Rebooked(db: Db, after: Db)
    requires OnePerBooking(db.invoices) && Counted(db.invoices)
    requires Numbered(after) && Filed(after) && SameHeads(db.invoices, after.invoices)
    requires forall k | 0 <= k < |after.invoices| :: InvoiceOk(after, after.invoices[k])
    ensures Books(after)
  {
    HeadsDecide(db.invoices, after.invoices);
  }

  lemma OkWhateverElse(db: Db, invs: seq<Invoice>, inv: Invoice)
    ensures InvoiceOk(db, inv) <==> InvoiceOk(db.(invoices := invs), inv)
  {}

  lemma OkAmongOthers(db: Db, k: nat, inv: Invoice, j: nat)
    requires k < |db.invoices| && j < |db.invoices| && InvoiceOk(db, inv) && InvoiceOk(db, db.invoices[j])
    requires SameHead(db.invoices[k], inv)
    ensures InvoiceOk(db.(invoices := db.invoices[k := inv]), db.invoices[k := inv][j])
    ensures SameHead(db.invoices[j], db.invoices[k := inv][j])
  {
    OkWhateverElse(db, db.invoices[k := inv], db.invoices[k := inv][j]);
  }

  lemma FilesWhateverInvoices(db: Db, invs: seq<Invoice>)
    requires Numbered(db) && Filed(db)
    ensures Numbered(db.(invoices := invs)) && Filed(db.(invoices := invs))
  {}

  lemma OneInvoiceRewritten(db: Db, k: nat, inv: Invoice)
    requires Books(db) && k < |db.invoices| && SameHead(db.invoices[k], inv) && InvoiceOk(db, inv)
    ensures Books(db.(invoices := db.invoices[k := inv]))
  {
    var after := db.(invoices := db.invoices[k := inv]);
    forall j | 0 <= j < |after.invoices|
      ensures InvoiceOk(after, after.invoices[j]) && SameHead(db.invoices[j], after.invoices[j])
    {
      OkAmongOthers(db, k, inv, j);
    }
    FilesWhateverInvoices(db, after.invoices);
    Rebooked(db, after);
  }

  // ---------- bookings move under the books ----------

  /** No row lost, none moved between organisations or companies, none back to pending. */
  ghost predicate Evolved(before: Bookings, after: Bookings) {
    forall i | i in before :: i in after
      && after[i].org == before[i].org && after[i].company == before[i].company
      && (after[i].status == Pending ==> before[i].status == Pending)
  }

  lemma BookingsMoved(db: Db, after: Db)
    requires Books(db) && Numbered(after) && db.next <= after.next && Evolved(db.bookings, after.bookings)
    requires forall i | i in after.bookings :: RoomKnown(after, after.bookings[i].org, after.bookings[i].room)
    requires after.orders == db.orders && after.items == db.items && after.invoices == db.invoices
    ensures Books(after)
  {
    forall k | 0 <= k < |after.invoices| ensures InvoiceOk(after, after.invoices[k]) {
      assert InvoiceOk(db, db.invoices[k]);
    }
  }

  // ---------- a new invoice ----------

  lemma OldNumberStands(invs: seq<Invoice>, all: seq<Invoice>, printed: (nat, nat) -> string, k: nat)
    requires invs <= all && k < |invs| && Carries(invs, printed, k)
    ensures Carries(all, printed, k)
  {
    assert all[k] == invs[k];
    HeadsCount(invs, all, invs[k].year, k);
  }

  lemma NewNumberCounts(invs: seq<Invoice>, all: seq<Invoice>, printed: (nat, nat) -> string, inv: Invoice)
    requires invs <= all && |all| > |invs| && all[|invs|] == inv
    requires inv.number == printed(inv.year, CountYear(invs, inv.year, |invs|) + 1)
    ensures Carries(all, printed, |invs|)
  {
    HeadsCount(invs, all, inv.year, |invs|);
  }

  lemma NumberCarriesOn(invs: seq<Invoice>, all: seq<Invoice>, printed: (nat, nat) -> string, k: nat)
    requires CountedAs(invs, printed) && invs <= all && k < |all| == |invs| + 1
    requires Carries(all, printed, |invs|)
    ensures Carries(all, printed, k)
  {
    if k < |invs| {
      assert Carries(invs, printed, k);
      OldNumberStands(invs, all, printed, k);
    }
  }

  lemma NumberingContinues(invs: seq<Invoice>, all: seq<Invoice>, printed: (nat, nat) -> string)
    requires CountedAs(invs, printed) && invs <= all && |all| == |invs| + 1
    requires all[|invs|].number == printed(all[|invs|].year, CountYear(invs, all[|invs|].year, |invs|) + 1)
    ensures CountedAs(all, printed)
  {
    NewNumberCounts(invs, all, printed, all[|invs|]);
    forall k | 0 <= k < |all| ensures Carries(all, printed, k) { NumberCarriesOn(invs, all, printed, k); }
  }

  /** The invoice is stored: its number is free, whatever invoices there are. */
  lemma InsertionSucceeds(invs: seq<Invoice>, inv: Invoice)
    requires Counted(invs) && inv.number == NextNumber(invs, inv.year)
    requires forall k | 0 <= k < |invs| && inv.booking.Some? :: invs[k].booking != inv.booking
    ensures Inserted(invs, inv) == invs + [inv]
  {
    forall other | other in invs
      ensures other.number != inv.number && (inv.booking.Some? ==> other.booking != inv.booking)
    {
      var k :| 0 <= k < |invs| && invs[k] == other;
      NextNumberIsFree(invs, inv.year, k);
    }
  }

  lemma OnePerBookingContinues(invs: seq<Invoice>, inv: Invoice)
    requires OnePerBooking(invs)
    requires forall k | 0 <= k < |invs| && inv.booking.Some? :: invs[k].booking != inv.booking
    ensures OnePerBooking(invs + [inv])
  {
    var all := invs + [inv];
    forall j, k | 0 <= j < k < |all| && all[j].booking.Some? ensures all[j].booking != all[k].booking {
      if k == |invs| { assert inv.booking.Some? ==> invs[j].booking != inv.booking; }
    }
  }

  lemma AllOkStill(db: Db, inv: Invoice)
    requires InvoiceOk(db, inv) && forall k | 0 <= k < |db.invoices| :: InvoiceOk(db, db.invoices[k])
    ensures var invs := db.invoices + [inv]; forall k | 0 <= k < |invs| :: InvoiceOk(db.(invoices := invs), invs[k])
  {
    var invs := db.invoices + [inv];
    forall k | 0 <= k < |invs| ensures InvoiceOk(db.(invoices := invs), invs[k]) {
      OkWhateverElse(db, invs, invs[k]);
    }
  }

  lemma InvoiceArrives(db: Db, inv: Invoice)
    requires Books(db) && InvoiceOk(db, inv) && inv.number == NextNumber(db.invoices, inv.year)
    requires forall k | 0 <= k < |db.invoices| && inv.booking.Some? :: db.invoices[k].booking != inv.booking
    ensures Inserted(db.invoices, inv) == db.invoices + [inv]
    ensures Books(db.(invoices := db.invoices + [inv]))
  {
    InsertionSucceeds(db.invoices, inv);
    NumberingContinues(db.invoices, db.invoices + [inv], Format);
    OnePerBookingContinues(db.invoices, inv);
    FilesWhateverInvoices(db, db.invoices + [inv]);
    AllOkStill(db, inv);
  }

  lemma OneRoomLine(l: Line)
    requires IsRoom(l)
    ensures SumLines([l]) == l.total && Where([l], IsRoom) == [l] && Where([l], IsLinked) == []
  {
    assert [l][..0] == [];
  }

  lemma FirstInvoice(db: Db, org: Id, b: Id, year: nat, nights: nat, price: nat, due: Option<int>)
    requires InOrg(db.bookings, org, b) && db.bookings[b].company.None?
    ensures InvoiceOk(db,
      NewInvoice(org, year, NextNumber(db.invoices, year), Some(b), None, due, [RoomLine(None, nights, price)]))
  {
    OneRoomLine(RoomLine(None, nights, price));
  }

  lemma NotInvoicedYet(db: Db, org: Id, b: Id, k: nat)
    requires Books(db) && InOrg(db.bookings, org, b) && FindOwn(db.invoices, b, org).None? && k < |db.invoices|
    ensures db.invoices[k].booking != Some(b)
  {
    assert InvoiceOk(db, db.invoices[k]);
  }

  ghost function RoomInvoice(db: Db, org: Id, id: Id, year: nat): Invoice
    requires id in db.bookings && db.bookings[id].room in db.rooms
  {
    var b := db.bookings[id];
    NewInvoice(org, year, NextNumber(db.invoices, year), Some(id), None, Some(b.checkOut),
      [RoomLine(None, Nights(b), db.rooms[b.room].price)])
  }

  lemma FirstOfItsBooking(db: Db, org: Id, id: Id, inv: Invoice)
    requires Books(db) && InOrg(db.bookings, org, id) && FindOwn(db.invoices, id, org).None?
    requires inv.booking == Some(id) && inv.org == org && inv.number == NextNumber(db.invoices, inv.year)
    ensures var invs := Inserted(db.invoices, inv);
      && invs == db.invoices + [inv] && invs[..|db.invoices|] == db.invoices
      && FindOwn(invs, id, org) == Some(|db.invoices|)
  {
    forall k | 0 <= k < |db.invoices| ensures db.invoices[k].booking != inv.booking { NotInvoicedYet(db, org, id, k); }
    InsertionSucceeds(db.invoices, inv);
    assert (db.invoices + [inv])[..|db.invoices|] == db.invoices;
  }

  /** What making an own invoice comes to: one more, or, for a booking that has one or when something
      fails, no change. (The UNIQUE constraint catches the case in which the look for it failed.) */
  lemma GenerateIsOneOrNone(db: Db, org: Id, b: Id, year: nat, f: InvoiceFaults)
    requires Books(db) && InOrg(db.bookings, org, b)
    ensures RoomKnown(db, org, db.bookings[b].room)
    ensures AfterGenerate(db, org, b, year, f) ==
      if FindOwn(db.invoices, b, org).Some? || 0 in f.unread || f.lost then db
      else db.(invoices := db.invoices + [RoomInvoice(db, org, b, year)])
    ensures FindOwn(AfterGenerate(db, org, b, year, f).invoices, b, org).Some? <==>
      FindOwn(db.invoices, b, org).Some? || !(0 in f.unread || f.lost)
  {
    var k := FindOwn(db.invoices, b, org);
    if k.None? {
      FirstOfItsBooking(db, org, b, RoomInvoice(db, org, b, year));
    } else {
      assert db.invoices[k.value] in db.invoices;
    }
  }

  lemma GenerateKeepsBooks(db: Db, org: Id, b: Id, year: nat, f: InvoiceFaults)
    requires Books(db) && InOrg(db.bookings, org, b) && db.bookings[b].company.None?
    ensures Books(AfterGenerate(db, org, b, year, f))
  {
    GenerateIsOneOrNone(db, org, b, year, f);
    if FindOwn(db.invoices, b, org).None? && !(0 in f.unread || f.lost) {
      var nights, price := Nights(db.bookings[b]), db.rooms[db.bookings[b].room].price;
      FirstInvoice(db, org, b, year, nights, price, Some(db.bookings[b].checkOut));
      var inv := RoomInvoice(db, org, b, year);
      forall k | 0 <= k < |db.invoices| ensures db.invoices[k].booking != inv.booking { NotInvoicedYet(db, org, b, k); }
      InvoiceArrives(db, inv);
    }
  }

  lemma {:induction false} CompanyLinesAreRoomLines(db: Db, org: Id, ids: seq<Id>, n: nat, unread: set<nat>)
    requires n <= |ids|
    ensures forall l | l in CompanyLines(db, org, ids, n, unread) :: l.orderItem.None?
  {
    if n > 0 { CompanyLinesAreRoomLines(db, org, ids, n - 1, unread); }
  }

  lemma GenerateCompanyKeepsBooks(db: Db, org: Id, company: Id, ids: seq<Id>, year: nat, f: InvoiceFaults)
    requires Books(db)
    ensures Books(AfterGenerateCompany(db, org, company, ids, year, f))
  {
    var lines := CompanyLines(db, org, ids, |ids|, f.unread);
    CompanyLinesAreRoomLines(db, org, ids, |ids|, f.unread);
    if lines != [] && AfterGenerateCompany(db, org, company, ids, year, f) != db {
      InvoiceArrives(db, NewInvoice(org, year, NextNumber(db.invoices, year), None, Some(company), None, lines));
    }
  }

  // ---------- the room charge ----------

  function RoomCharge(inv: Invoice): nat { SumLines(Where(inv.lines, IsRoom)) }

  lemma RechargedRoom(inv: Invoice, nights: nat, price: nat, now: int)
    requires |Where(inv.lines, IsRoom)| == 1
    requires forall l | l in inv.lines && l.orderItem.Some? :: l.order.Some?
    ensures RoomCharge(SetRoomCharge(inv, nights, price, now)) == nights * price
    ensures |Where(SetRoomCharge(inv, nights, price, now).lines, IsRoom)| == 1
  {
    var f, room := Recharged(nights, price), Where(inv.lines, IsRoom);
    WhereEach(inv.lines, f, IsRoom, IsRoom);
    assert room[0] in room;
    OneRoomLine(f(room[0]));
    assert Each(room, f) == [f(room[0])];
  }

  /** Redating a stay reprices its room line and re-adds the bill. */
  lemma RechargedInvoice(db: Db, inv: Invoice, nights: nat, price: nat, now: int)
    requires InvoiceOk(db, inv)
    ensures InvoiceOk(db, SetRoomCharge(inv, nights, price, now))
    ensures inv.booking.Some? ==> RoomCharge(SetRoomCharge(inv, nights, price, now)) == nights * price
  {
    RecalculationIsExact(inv.(lines := Each(inv.lines, Recharged(nights, price))));
    if inv.booking.Some? { RechargedRoom(inv, nights, price, now); }
  }

  lemma RechargeKeepsBooks(db: Db, org: Id, b: Id, today: int, lost: bool)
    requires Books(db)
    ensures Books(AfterRecharge(db, org, b, today, lost))
  {
    var k := FindOwn(db.invoices, b, org);
    if !lost && InOrg(db.bookings, org, b) && k.Some? && RoomKnown(db, org, db.bookings[b].room) {
      var nights, price := Nights(db.bookings[b]), db.rooms[db.bookings[b].room].price;
      RechargedInvoice(db, db.invoices[k.value], nights, price, today);
      OneInvoiceRewritten(db, k.value, SetRoomCharge(db.invoices[k.value], nights, price, today));
    }
  }

  // ---------- items arrive ----------

  lemma SameRoomLines(lines: seq<Line>, its: seq<Item>, b: Id)
    ensures Where(lines + Each(its, AsLine(b)), IsRoom) == Where(lines, IsRoom)
  {
    WhereConcat(lines, Each(its, AsLine(b)), IsRoom);
    WhereNone(Each(its, AsLine(b)), IsRoom);
  }

  /** However many of an order's lines arrive, the invoice adds up. */
  lemma BilledInvoice(db: Db, inv: Invoice, b: Id, its: seq<Item>)
    requires InvoiceOk(db, inv) && forall it | it in its :: it.id < db.next
    ensures InvoiceOk(db, AppendLines(inv, Each(its, AsLine(b))))
    ensures SameHead(inv, AppendLines(inv, Each(its, AsLine(b))))
  {
    AppendedLines(inv, Each(its, AsLine(b)));
    SameRoomLines(inv.lines, its, b);
  }

  lemma BillingKeepsBooks(db: Db, org: Id, booking: Option<Id>, its: seq<Item>, f: OrderFaults)
    requires Books(db) && forall it | it in its :: it.id < db.next
    ensures Books(AfterBilling(db, org, booking, its, f))
  {
    if booking.Some? && !f.unread && BillTo(db, org, booking.value).Some? {
      var k, b := BillTo(db, org, booking.value).value, booking.value;
      BilledInvoice(db, db.invoices[k], b, Billed(its, f.lost, |its|));
      OneInvoiceRewritten(db, k, AppendLines(db.invoices[k], Each(Billed(its, f.lost, |its|), AsLine(b))));
    }
  }

  lemma FiledItems(db: Db, org: Id, order: nat, qs: seq<ItemRequest>)
    requires ItemsError(db.menu, org, qs, |qs|).None? && qs != []
    ensures var its := NewItems(db.menu, org, order, db.next, qs, |qs|);
      its != [] && forall it | it in its :: it.order == order && db.next <= it.id < db.next + |qs|
  {}

  lemma StoredKeepsBooks(db: Db, after: Db)
    requires Books(db) && Numbered(after) && Filed(after)
    requires after.bookings == db.bookings && after.invoices == db.invoices && db.next <= after.next
    ensures Books(after)
  {
    forall k | 0 <= k < |after.invoices| ensures InvoiceOk(after, after.invoices[k]) {
      assert InvoiceOk(db, db.invoices[k]);
    }
  }

  lemma OrderStored(db: Db, org: Id, booking: Option<Id>, qs: seq<ItemRequest>, today: int)
    requires Books(db) && qs != [] && ItemsError(db.menu, org, qs, |qs|).None?
    requires booking.Some? ==> InOrg(db.bookings, org, booking.value) && db.bookings[booking.value].status != Pending
    ensures Books(WithOrder(db, org, booking, qs, today))
  {
    FiledItems(db, org, |db.orders|, qs);
    assert Filed(WithOrder(db, org, booking, qs, today));
    StoredKeepsBooks(db, WithOrder(db, org, booking, qs, today));
  }

  lemma ItemsStored(db: Db, org: Id, order: nat, qs: seq<ItemRequest>)
    requires Books(db) && qs != [] && ItemsError(db.menu, org, qs, |qs|).None? && OrderKnown(db, org, order)
    ensures Books(WithItems(db, org, order, qs))
  {
    FiledItems(db, org, order, qs);
    assert Filed(WithItems(db, org, order, qs));
    StoredKeepsBooks(db, WithItems(db, org, order, qs));
  }

  lemma PlaceKeepsBooks(db: Db, org: Id, b: Id, qs: seq<ItemRequest>, today: int, f: OrderFaults)
    requires Books(db)
    ensures Books(AfterPlace(db, org, b, qs, today, f))
  {
    if PlaceOrderError(db, org, b, qs, f).None? {
      OrderStored(db, org, Some(b), qs, today);
      FiledItems(db, org, |db.orders|, qs);
      BillingKeepsBooks(WithOrder(db, org, Some(b), qs, today), org, Some(b),
        NewItems(db.menu, org, |db.orders|, db.next, qs, |qs|), f);
    }
  }

  lemma WalkInKeepsBooks(db: Db, org: Id, qs: seq<ItemRequest>, today: int, f: OrderFaults)
    requires Books(db)
    ensures Books(AfterWalkIn(db, org, qs, today, f))
  {
    if WalkInError(db, org, qs, f).None? { OrderStored(db, org, None, qs, today); }
  }

  lemma AddKeepsBooks(db: Db, org: Id, order: nat, qs: seq<ItemRequest>, f: OrderFaults)
    requires Books(db)
    ensures Books(AfterAdd(db, org, order, qs, f))
  {
    if AddError(db, org, order, qs, f).None? {
      ItemsStored(db, org, order, qs);
      FiledItems(db, org, order, qs);
      BillingKeepsBooks(WithItems(db, org, order, qs), org, db.orders[order].booking,
        NewItems(db.menu, org, order, db.next, qs, |qs|), f);
    }
  }

  // ---------- items leave ----------

  /** Because the foreign key clears the line's item before RemoveOrderLineItem looks for it, taking an
      item off an order deletes the item, orphans its line, and nothing else. */
  lemma RemovalOnlyOrphans(db: Db, org: Id, order: nat, item: Id)
    requires forall k | 0 <= k < |db.invoices| :: Balanced(db.invoices[k])
    requires RemoveError(db, org, order, item).None?
    ensures AfterRemove(db, org, order, item) == WithoutItem(db, item)
  {
    var after := WithoutItem(db, item);
    var booking := db.orders[order].booking;
    if booking.Some? {
      var k := FindOwn(after.invoices, booking.value, org);
      if k.Some? {
        RemovalAfterUnlinkIsIdle(db.invoices[k.value], item);
        assert RemoveLine(after.invoices[k.value], item) == after.invoices[k.value];
        assert after.invoices[k.value := after.invoices[k.value]] == after.invoices;
      }
    }
  }

  lemma UnlinkedInvoice(db: Db, inv: Invoice, item: Id)
    requires InvoiceOk(db, inv)
    ensures InvoiceOk(WithoutItem(db, item), Unlink(inv, item))
  {
    RemovalAfterUnlinkIsIdle(inv, item);
    if inv.booking.Some? { UnlinkedRoom(inv.lines, item); }
  }

  lemma UnlinkedRoom(lines: seq<Line>, item: Id)
    requires forall l | l in lines && l.orderItem.Some? :: l.order.Some?
    ensures Where(Each(lines, Unlinked(item)), IsRoom) == Where(lines, IsRoom)
  {
    var f, rooms := Unlinked(item), Where(lines, IsRoom);
    WhereEach(lines, f, IsRoom, IsRoom);
    assert Each(rooms, f) == rooms by {
      forall k | 0 <= k < |rooms| ensures f(rooms[k]) == rooms[k] { assert rooms[k] in rooms; }
    }
  }

  lemma RemovalKeepsFiles(db: Db, item: Id)
    requires Numbered(db) && Filed(db)
    ensures Numbered(WithoutItem(db, item)) && Filed(WithoutItem(db, item))
    ensures SameHeads(db.invoices, WithoutItem(db, item).invoices)
  {}

  lemma RemoveKeepsBooks(db: Db, org: Id, order: nat, item: Id)
    requires Books(db)
    ensures Books(AfterRemove(db, org, order, item))
  {
    if RemoveError(db, org, order, item).None? {
      forall k | 0 <= k < |db.invoices| ensures Balanced(db.invoices[k]) { assert InvoiceOk(db, db.invoices[k]); }
      RemovalOnlyOrphans(db, org, order, item);
      RemovalKeepsFiles(db, item);
      var after := WithoutItem(db, item);
      forall k | 0 <= k < |after.invoices| ensures InvoiceOk(after, after.invoices[k]) {
        UnlinkedInvoice(db, db.invoices[k], item);
      }
      Rebooked(db, after);
    }
  }

  // ---------- orders and bookings rewritten ----------

  lemma CloseKeepsBooks(db: Db, org: Id, today: int)
    requires Books(db)
    ensures Books(AfterClose(db, org, today))
  {
    var after := AfterClose(db, org, today);
    forall o | o in after.orders && o.booking.Some? ensures InOrg(db.bookings, o.org, o.booking.value)
      && db.bookings[o.booking.value].status != Pending
    {
      var k :| 0 <= k < |after.orders| && after.orders[k] == o;
      assert db.orders[k] in db.orders;
    }
    StoredKeepsBooks(db, after);
  }

  lemma DetachedInvoice(db: Db, org: Id, id: Id, inv: Invoice)
    requires InvoiceOk(db, inv) && DeleteError(db, org, id).None? && inv.booking != Some(id)
    ensures InvoiceOk(AfterDelete(db, org, id), LinesDetached(id)(inv))
  {
    SumKept(inv.lines, LineDetached(id));
    WhereEach(inv.lines, LineDetached(id), IsRoom, IsRoom);
  }

  lemma DeleteKeepsFiles(db: Db, org: Id, id: Id)
    requires Filed(db) && Numbered(db)
    ensures Filed(AfterDelete(db, org, id)) && Numbered(AfterDelete(db, org, id))
  {
    if DeleteError(db, org, id).None? {
      var after := AfterDelete(db, org, id);
      forall o | o in after.orders && o.booking.Some? ensures InOrg(after.bookings, o.org, o.booking.value)
        && after.bookings[o.booking.value].status != Pending
      {
        var k :| 0 <= k < |after.orders| && after.orders[k] == o;
        assert db.orders[k] in db.orders;
      }
    }
  }

  lemma DeleteKeepsBooks(db: Db, org: Id, id: Id)
    requires Books(db)
    ensures Books(AfterDelete(db, org, id))
  {
    if DeleteError(db, org, id).None? {
      var after := AfterDelete(db, org, id);
      DeleteKeepsFiles(db, org, id);
      forall k | 0 <= k < |after.invoices| ensures InvoiceOk(after, after.invoices[k]) {
        assert db.invoices[k] in db.invoices && InvoiceOk(db, db.invoices[k]);
        DetachedInvoice(db, org, id, db.invoices[k]);
      }
      Rebooked(db, after);
    }
  }

  lemma OkWhenRedated(db: Db, inv: Invoice, due: Option<int>)
    requires InvoiceOk(db, inv)
    ensures InvoiceOk(db, inv.(due := due))
  {}

  lemma StretchedStaysEvolve(db: Db, ids: set<Id>, marked: set<Id>, today: int)
    requires Books(db)
    ensures Books(db.(bookings := Stretched(db.bookings, ids, marked, today)))
  {
    BookingsMoved(db, db.(bookings := Stretched(db.bookings, ids, marked, today)));
  }

  lemma RedatingKeepsBooks(db: Db, invs: seq<Invoice>)
    requires Books(db) && |invs| == |db.invoices|
    requires forall k | 0 <= k < |invs| :: invs[k] == db.invoices[k].(due := invs[k].due)
    ensures Books(db.(invoices := invs))
  {
    forall k | 0 <= k < |invs| ensures InvoiceOk(db.(invoices := invs), invs[k]) && SameHead(db.invoices[k], invs[k]) {
      OkWhenRedated(db, db.invoices[k], invs[k].due);
      OkWhateverElse(db, invs, invs[k]);
    }
    Rebooked(db, db.(invoices := invs));
  }

  lemma JobKeepsBooks(db: Db, orgs: set<Id>, today: int, faults: JobFaults)
    requires Books(db)
    ensures Books(AfterOverdue(db, orgs, today, faults))
  {
    var ids := Overdue(db.bookings, orgs, today) - faults.extend;
    StretchedStaysEvolve(db, ids, ids - faults.mark, today);
    JobLeavesChargesAlone(db, orgs, today, faults);
    RedatingKeepsBooks(db.(bookings := Stretched(db.bookings, ids, ids - faults.mark, today)),
      AfterOverdue(db, orgs, today, faults).invoices);
  }

  lemma UpdateKeepsBooks(db: Db, org: Id, id: Id, e: Edit, today: int, f: EditFaults)
    requires Books(db)
    ensures Books(AfterUpdate(db, org, id, e, today, f))
  {
    if Unwritten(UpdateError(db.bookings, org, id, e), f.write).None? {
      var stored := db.(bookings := db.bookings[id := Edited(db.bookings[id], e)]);
      BookingsMoved(db, stored);
      RechargeKeepsBooks(stored, org, id, today, f.recharge);
    }
  }

  lemma RestatedKeepsBooks(db: Db, org: Id, id: Id, to: Status)
    requires Books(db) && StatusError(db.bookings, org, id, to).None?
    ensures Books(db.(bookings := Restated(db.bookings, id, to)))
  {
    TransitionsOnlyWindDown(db.bookings[id].status, to);
    BookingsMoved(db, db.(bookings := Restated(db.bookings, id, to)));
  }

  lemma StatusKeepsBooks(db: Db, org: Id, id: Id, to: Status, year: nat, f: StatusFaults)
    requires Books(db)
    ensures Books(AfterStatus(db, org, id, to, year, f))
  {
    if Unwritten(StatusError(db.bookings, org, id, to), f.write).None? {
      RestatedKeepsBooks(db, org, id, to);
      if to == Confirmed && db.bookings[id].company.None? {
        GenerateKeepsBooks(db.(bookings := Restated(db.bookings, id, to)), org, id, year, f.invoice);
      }
    }
  }

  lemma CancelKeepsBooks(db: Db, client: Id, id: Id)
    requires Books(db)
    ensures Books(AfterCancel(db, client, id))
  {
    BookingsMoved(db, AfterCancel(db, client, id));
  }

  lemma OutcomeKeepsBooks(db: Db, org: Id, id: Id, approved: bool)
    requires Books(db)
    ensures Books(db.(bookings := OutcomeApplied(db.bookings, org, id, approved)))
  {
    BookingsMoved(db, db.(bookings := OutcomeApplied(db.bookings, org, id, approved)));
  }

  /** A stay more, or only the client. */
  lemma IndividualAdds(db: Db, org: Id, q: StayRequest, f: StayFaults)
    ensures var after, staged := AfterIndividual(db, org, q, f), WithClient(db, org, q.client);
      && after == db.(individuals := after.individuals, bookings := after.bookings, next := after.next)
      && db.next <= after.next && db.next <= staged.next
      && (after.bookings == db.bookings
          || (RoomKnown(db, org, q.room)
              && after.bookings == db.bookings[staged.next := Stay(org, ClientId(db, q.client), None, q)]))
  {}

  lemma IndividualKeepsBooks(db: Db, org: Id, q: StayRequest, f: StayFaults)
    requires Books(db)
    ensures Books(AfterIndividual(db, org, q, f))
  {
    IndividualStep(db, org, q, f);
    IndividualAdds(db, org, q, f);
    BookingsMoved(db, AfterIndividual(db, org, q, f));
  }

  lemma GuestKeepsBooks(db: Db, profile: Option<Id>, q: StayRequest, f: GuestFaults)
    requires Books(db)
    ensures Books(AfterGuest(db, profile, q, f))
  {
    GuestStep(db, profile, q, f);
    BookingsMoved(db, AfterGuest(db, profile, q, f));
  }
}
