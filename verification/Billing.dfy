/** Orders, invoices and the arithmetic between them. */
module Billing {
  import opened Prelude
  import opened Schema
  import opened Reservations
  import opened InvoiceNumbers

  const TAX_RATE: nat := 1600 // 16% VAT

  // ---------- money ----------

  /** n ten-thousandths of a cent to the nearest whole cent, halves up. */
  function HalfUp(n: nat): (r: nat)
    ensures 20000 * r - 10000 <= 2 * n < 20000 * r + 10000
  { (n + 5000) / 10000 }

  /** ROUND(subtotal * tax_rate / 100, 2). */
  function TaxOf(subtotal: nat, rate: nat): nat { HalfUp(subtotal * rate) }

  /** ROUND(subtotal * (1 + tax_rate / 100), 2). */
  function GrossOf(subtotal: nat, rate: nat): nat { HalfUp(subtotal * (10000 + rate)) }

  /** The two ways of computing a total: tax rounded and added, or the grossed-up sum rounded. */
  lemma GoAndSqlTotalsAgree(subtotal: nat, rate: nat)
    ensures GrossOf(subtotal, rate) == subtotal + TaxOf(subtotal, rate)
  {
    assert subtotal * (10000 + rate) == 10000 * subtotal + subtotal * rate;
  }

  function SumLines(ls: seq<Line>): nat {
    if ls == [] then 0 else SumLines(ls[..|ls| - 1]) + ls[|ls| - 1].total
  }

  function SumItems(its: seq<Item>): nat {
    if its == [] then 0 else SumItems(its[..|its| - 1]) + its[|its| - 1].subtotal
  }

  lemma {:induction false} SumLinesConcat(a: seq<Line>, b: seq<Line>)
    ensures SumLines(a + b) == SumLines(a) + SumLines(b)
  {
    if b == [] {
      assert a + b == a;
    } else {
      SumLinesConcat(a, b[..|b| - 1]);
      assert (a + b)[..|a + b| - 1] == a + b[..|b| - 1];
    }
  }

  lemma {:induction false} SumItemsConcat(a: seq<Item>, b: seq<Item>)
    ensures SumItems(a + b) == SumItems(a) + SumItems(b)
  {
    if b == [] {
      assert a + b == a;
    } else {
      SumItemsConcat(a, b[..|b| - 1]);
      assert (a + b)[..|a + b| - 1] == a + b[..|b| - 1];
    }
  }

  // ---------- one invoice ----------

  /** The SQL that follows every change of lines. */
  function Recalculated(inv: Invoice): Invoice {
    var s := SumLines(inv.lines);
    inv.(subtotal := s, tax := TaxOf(s, inv.rate), total := GrossOf(s, inv.rate))
  }

  /** What a guest may expect of the printed amounts. */
  ghost predicate Balanced(inv: Invoice) {
    inv.subtotal == SumLines(inv.lines) &&
    inv.tax == TaxOf(inv.subtotal, inv.rate) && inv.total == inv.subtotal + inv.tax
  }

  /** The amounts Go puts on a new invoice. */
  function NewInvoice(org: Id, year: nat, number: string, booking: Option<Id>, company: Option<Id>,
                      due: Option<int>, lines: seq<Line>): Invoice {
    var s := SumLines(lines);
    Invoice(org, year, number, booking, company, TAX_RATE, s, TaxOf(s, TAX_RATE), s + TaxOf(s, TAX_RATE), due, lines)
  }

  lemma RecalculationIsExact(inv: Invoice)
    ensures Balanced(Recalculated(inv))
    ensures Balanced(inv) <==> Recalculated(inv) == inv
  {
    GoAndSqlTotalsAgree(SumLines(inv.lines), inv.rate);
  }

  function AppendLine(inv: Invoice, l: Line): Invoice { Recalculated(inv.(lines := inv.lines + [l])) }

  function AppendLines(inv: Invoice, ls: seq<Line>): Invoice {
    if ls == [] then inv else AppendLine(AppendLines(inv, ls[..|ls| - 1]), ls[|ls| - 1])
  }

  function NotFor(item: Id): Line -> bool { (l: Line) => l.orderItem != Some(item) }

  function RemoveLine(inv: Invoice, item: Id): Invoice {
    Recalculated(inv.(lines := Where(inv.lines, NotFor(item))))
  }

  function RemoveLines(inv: Invoice, items: seq<Id>): Invoice {
    if items == [] then inv else RemoveLine(RemoveLines(inv, items[..|items| - 1]), items[|items| - 1])
  }

  /** ON DELETE SET NULL: a line forgets the order item it was written for. */
  function Unlinked(item: Id): Line -> Line {
    (l: Line) => if l.orderItem == Some(item) then l.(orderItem := None) else l
  }

  function Unlink(inv: Invoice, item: Id): Invoice { inv.(lines := Each(inv.lines, Unlinked(item))) }

  /** The room charge sits on the lines that belong to no order. */
  function Recharged(nights: nat, price: nat): Line -> Line {
    (l: Line) => if l.order.None? then l.(quantity := nights, unitPrice := price, total := nights * price) else l
  }

  function SetRoomCharge(inv: Invoice, nights: nat, price: nat, now: int): Invoice {
    Recalculated(inv.(lines := Each(inv.lines, Recharged(nights, price)))).(due := Some(now))
  }

  /** Nothing but lines and amounts differs. */
  ghost predicate SameButLines(a: Invoice, b: Invoice) {
    a.(lines := b.lines, subtotal := b.subtotal, tax := b.tax, total := b.total) == b
  }

  lemma {:induction false} AppendedLines(inv: Invoice, ls: seq<Line>)
    ensures AppendLines(inv, ls).lines == inv.lines + ls
    ensures Balanced(inv) || ls != [] ==> Balanced(AppendLines(inv, ls))
    ensures SameButLines(AppendLines(inv, ls), inv)
  {
    if ls != [] {
      AppendedLines(inv, ls[..|ls| - 1]);
      RecalculationIsExact(AppendLines(inv, ls[..|ls| - 1]).(lines := inv.lines + ls[..|ls| - 1] + [ls[|ls| - 1]]));
      assert inv.lines + ls[..|ls| - 1] + [ls[|ls| - 1]] == inv.lines + ls;
    }
  }

  /** Lines of `extra` that none of the removals was for. */
  ghost predicate LeftOver(rest: seq<Line>, extra: seq<Line>, items: seq<Id>) {
    forall l | l in rest :: l in extra && forall i | i in items :: l.orderItem != Some(i)
  }

  lemma {:induction false} RemovedLines(inv: Invoice, kept: seq<Line>, extra: seq<Line>, items: seq<Id>)
    requires Balanced(inv) && inv.lines == kept + extra
    requires forall l, i | l in kept && i in items :: l.orderItem != Some(i)
    ensures exists rest :: RemoveLines(inv, items).lines == kept + rest && LeftOver(rest, extra, items)
    ensures Balanced(RemoveLines(inv, items))
    ensures SameButLines(RemoveLines(inv, items), inv)
  {
    if items == [] {
      assert RemoveLines(inv, items).lines == kept + extra && LeftOver(extra, extra, items);
    } else {
      var init, x := items[..|items| - 1], items[|items| - 1];
      RemovedLines(inv, kept, extra, init);
      var before := RemoveLines(inv, init);
      var rest :| before.lines == kept + rest && LeftOver(rest, extra, init);
      WhereConcat(kept, rest, NotFor(x));
      WhereAll(kept, NotFor(x));
      RecalculationIsExact(before.(lines := Where(before.lines, NotFor(x))));
      assert RemoveLines(inv, items).lines == kept + Where(rest, NotFor(x));
      assert LeftOver(Where(rest, NotFor(x)), extra, items);
    }
  }

  /** The invoice repository on its own undoes itself to the cent: append a line for each of some
      order items, remove the lines of those items in any order, and the invoice is the one it was. */
  lemma AppendThenRemoveRestores(inv: Invoice, ls: seq<Line>, items: seq<Id>)
    requires Balanced(inv)
    requires forall l, i | l in inv.lines && i in items :: l.orderItem != Some(i)
    requires forall l | l in ls :: l.orderItem.Some? && l.orderItem.value in items
    ensures RemoveLines(AppendLines(inv, ls), items) == inv
  {
    AppendedLines(inv, ls);
    RemovedLines(AppendLines(inv, ls), inv.lines, ls, items);
    var after := RemoveLines(AppendLines(inv, ls), items);
    var rest :| after.lines == inv.lines + rest && LeftOver(rest, ls, items);
    HasFirst(rest);
    assert after.lines == inv.lines;
  }

  lemma {:induction false} SumKept(ls: seq<Line>, f: Line -> Line)
    requires forall l | l in ls :: f(l).total == l.total
    ensures SumLines(Each(ls, f)) == SumLines(ls)
  {
    if ls != [] {
      SumKept(ls[..|ls| - 1], f);
      assert Each(ls, f)[..|ls| - 1] == Each(ls[..|ls| - 1], f);
    }
  }

  /** Once the foreign key has fired there is no line left to find, so removal changes nothing. */
  lemma RemovalAfterUnlinkIsIdle(inv: Invoice, item: Id)
    requires Balanced(inv)
    ensures RemoveLine(Unlink(inv, item), item) == Unlink(inv, item)
    ensures Balanced(Unlink(inv, item))
  {
    SumKept(inv.lines, Unlinked(item));
    WhereAll(Unlink(inv, item).lines, NotFor(item));
    RecalculationIsExact(Unlink(inv, item));
  }

  // ---------- which part of an invoice is what ----------

  predicate IsRoom(l: Line) { l.order.None? && l.orderItem.None? }
  predicate IsLinked(l: Line) { l.orderItem.Some? }
  predicate IsOrphan(l: Line) { l.order.Some? && l.orderItem.None? }

  lemma {:induction false} SumSplits(ls: seq<Line>)
    ensures SumLines(ls) == SumLines(Where(ls, IsRoom)) + SumLines(Where(ls, IsLinked)) + SumLines(Where(ls, IsOrphan))
  {
    if ls != [] {
      var init, l := ls[..|ls| - 1], ls[|ls| - 1];
      SumSplits(init);
      assert [l][..0] == [];
      SumLinesConcat(Where(init, IsRoom), [l]);
      SumLinesConcat(Where(init, IsLinked), [l]);
      SumLinesConcat(Where(init, IsOrphan), [l]);
    }
  }

  // ---------- the invoice table ----------

  function FindOwn(invs: seq<Invoice>, booking: Id, org: Id): (r: Option<nat>)
    ensures r.Some? ==> r.value < |invs| && invs[r.value].booking == Some(booking) && invs[r.value].org == org
    ensures r.None? ==> forall k | 0 <= k < |invs| :: invs[k].booking != Some(booking) || invs[k].org != org
  {
    if invs == [] then None
    else if FindOwn(invs[..|invs| - 1], booking, org).Some? then FindOwn(invs[..|invs| - 1], booking, org)
    else if invs[|invs| - 1].booking == Some(booking) && invs[|invs| - 1].org == org then Some(|invs| - 1)
    else None
  }

  function FindCompany(invs: seq<Invoice>, company: Id, org: Id): (r: Option<nat>)
    ensures r.Some? ==> r.value < |invs| && invs[r.value].company == Some(company) && invs[r.value].org == org
    ensures r.None? ==> forall k | 0 <= k < |invs| :: invs[k].company != Some(company) || invs[k].org != org
  {
    if invs == [] then None
    else if FindCompany(invs[..|invs| - 1], company, org).Some? then FindCompany(invs[..|invs| - 1], company, org)
    else if invs[|invs| - 1].company == Some(company) && invs[|invs| - 1].org == org then Some(|invs| - 1)
    else None
  }

  /** Invoices of the year among the first n. */
  function CountYear(invs: seq<Invoice>, year: nat, n: nat): nat
    requires n <= |invs|
  { if n == 0 then 0 else CountYear(invs, year, n - 1) + if invs[n - 1].year == year then 1 else 0 }

  function NextNumber(invs: seq<Invoice>, year: nat): string { Format(year, CountYear(invs, year, |invs|) + 1) }

  /** The UNIQUE constraints on invoice_number and booking_id. */
  predicate Admissible(invs: seq<Invoice>, inv: Invoice) {
    forall other | other in invs :: other.number != inv.number && (inv.booking.Some? ==> other.booking != inv.booking)
  }

  function Inserted(invs: seq<Invoice>, inv: Invoice): seq<Invoice> {
    if Admissible(invs, inv) then invs + [inv] else invs
  }

  function Nights(b: Booking): nat { if b.checkOut - b.checkIn < 1 then 1 else b.checkOut - b.checkIn }

  predicate RoomKnown(db: Db, org: Id, room: Id) { room in db.rooms && db.rooms[room].org == org }

  function RoomLine(booking: Option<Id>, nights: nat, price: nat): Line {
    Line(booking, None, None, nights, price, nights * price)
  }

  /** What fails while an invoice is made: the search for an earlier one, whose error nobody looks at;
      reading a booking or its room, by position in the request; the new number or the insert. */
  datatype InvoiceFaults = InvoiceFaults(lookup: bool, unread: set<nat>, lost: bool)

  function AfterGenerate(db: Db, org: Id, booking: Id, year: nat, f: InvoiceFaults): Db {
    if !f.lookup && FindOwn(db.invoices, booking, org).Some? then db
    else if 0 in f.unread || f.lost || !InOrg(db.bookings, org, booking) then db
    else
      var b := db.bookings[booking];
      if !RoomKnown(db, org, b.room) then db
      else
        var line := RoomLine(None, Nights(b), db.rooms[b.room].price);
        db.(invoices := Inserted(db.invoices,
          NewInvoice(org, year, NextNumber(db.invoices, year), Some(booking), None, Some(b.checkOut), [line])))
  }

  function CompanyLines(db: Db, org: Id, ids: seq<Id>, n: nat, unread: set<nat>): seq<Line>
    requires n <= |ids|
  {
    if n == 0 then []
    else
      var rest, id := CompanyLines(db, org, ids, n - 1, unread), ids[n - 1];
      if n - 1 !in unread && InOrg(db.bookings, org, id) && RoomKnown(db, org, db.bookings[id].room)
      then rest + [RoomLine(Some(id), Nights(db.bookings[id]), db.rooms[db.bookings[id].room].price)]
      else rest
  }

  function AfterGenerateCompany(db: Db, org: Id, company: Id, ids: seq<Id>, year: nat, f: InvoiceFaults): Db {
    var lines := CompanyLines(db, org, ids, |ids|, f.unread);
    if !f.lookup && FindCompany(db.invoices, company, org).Some? then db
    else if lines == [] || f.lost then db
    else db.(invoices := Inserted(db.invoices,
           NewInvoice(org, year, NextNumber(db.invoices, year), None, Some(company), None, lines)))
  }

  function AfterRecharge(db: Db, org: Id, booking: Id, today: int, lost: bool): Db {
    if lost || !InOrg(db.bookings, org, booking) then db
    else
      var b, k := db.bookings[booking], FindOwn(db.invoices, booking, org);
      if k.None? || !RoomKnown(db, org, b.room) then db
      else db.(invoices := db.invoices[k.value :=
             SetRoomCharge(db.invoices[k.value], Nights(b), db.rooms[b.room].price, today)])
  }

  // ---------- orders ----------

  datatype OrderError =
    | NoItems | NoSuchBooking | NotOrderable | MenuItemMissing(i: nat) | BadQuantity(i: nat)
    | OrderNotFound | OrderClosed | ItemNotFound | NotStored | NotReread

  datatype ItemRequest = ItemRequest(menuItem: Id, quantity: int)

  /** The first request the insert loop cannot store: unknown menu item, or the quantity check. */
  function ItemsError(menu: map<Id, MenuItem>, org: Id, qs: seq<ItemRequest>, n: nat): Option<OrderError>
    requires n <= |qs|
  {
    if n == 0 then None
    else
      var e := ItemsError(menu, org, qs, n - 1);
      if e.Some? then e
      else if qs[n - 1].menuItem !in menu || menu[qs[n - 1].menuItem].org != org then Some(MenuItemMissing(n - 1))
      else if qs[n - 1].quantity <= 0 then Some(BadQuantity(n - 1))
      else None
  }

  /** Once refused, looking at more requests does not change the answer. */
  lemma {:induction false} ItemsErrorSticks(menu: map<Id, MenuItem>, org: Id, qs: seq<ItemRequest>, m: nat, n: nat)
    requires m <= n <= |qs| && ItemsError(menu, org, qs, m).Some?
    ensures ItemsError(menu, org, qs, n) == ItemsError(menu, org, qs, m)
  {
    if m < n { ItemsErrorSticks(menu, org, qs, m, n - 1); }
  }

  /** The rows the insert loop stores, prices taken from the menu as it is now. */
  function NewItems(menu: map<Id, MenuItem>, org: Id, order: nat, first: Id, qs: seq<ItemRequest>,
                    n: nat): (its: seq<Item>)
    requires n <= |qs| && ItemsError(menu, org, qs, n).None?
    ensures |its| == n
    ensures forall k | 0 <= k < n :: its[k].id == first + k && its[k].order == order
    ensures forall k | 0 <= k < n :: qs[k].menuItem in menu && its[k].quantity == qs[k].quantity
    ensures forall k | 0 <= k < n :: its[k].unitPrice == menu[qs[k].menuItem].price
    ensures forall k | 0 <= k < n :: its[k].subtotal == its[k].quantity * its[k].unitPrice
  {
    if n == 0 then []
    else
      var price := menu[qs[n - 1].menuItem].price;
      NewItems(menu, org, order, first, qs, n - 1)
        + [Item(first + n - 1, order, qs[n - 1].quantity, price, price * qs[n - 1].quantity)]
  }

  function AsLine(booking: Id): Item -> Line {
    (it: Item) => Line(Some(booking), Some(it.order), Some(it.id), it.quantity, it.unitPrice, it.subtotal)
  }

  /** The invoice an order of this booking is billed to. */
  function BillTo(db: Db, org: Id, booking: Id): (r: Option<nat>)
    ensures r.Some? ==> r.value < |db.invoices|
  {
    if !InOrg(db.bookings, org, booking) then None
    else if db.bookings[booking].company.Some? then FindCompany(db.invoices, db.bookings[booking].company.value, org)
    else FindOwn(db.invoices, booking, org)
  }

  /** What fails while an order is taken: its transaction; reading it back after the commit; reading the
      booking or the invoice to bill; the append of single lines, by position. */
  datatype OrderFaults = OrderFaults(write: bool, reread: bool, unread: bool, lost: set<nat>)

  /** The items among the first n whose line is stored. */
  function Billed(its: seq<Item>, lost: set<nat>, n: nat): (r: seq<Item>)
    requires n <= |its|
    ensures forall it | it in r :: it in its
  {
    if n == 0 then [] else Billed(its, lost, n - 1) + if n - 1 in lost then [] else [its[n - 1]]
  }

  /** Whether the line of the i-th item of a call gets lost on its way to the bill. */
  predicate Loses(f: OrderFaults, i: nat) { f.reread || f.unread || i in f.lost }

  /** The items of a call that do get billed. */
  function Reached(its: seq<Item>, f: OrderFaults): seq<Item> {
    if f.reread || f.unread then [] else Billed(its, f.lost, |its|)
  }

  function PriceOf(menu: map<Id, MenuItem>, q: ItemRequest): nat {
    if q.menuItem in menu && q.quantity > 0 then menu[q.menuItem].price * q.quantity else 0
  }

  lemma BillOneMore(inv: Invoice, its: seq<Item>, it: Item, booking: Id)
    ensures AppendLines(inv, Each(its + [it], AsLine(booking)))
      == AppendLine(AppendLines(inv, Each(its, AsLine(booking))), AsLine(booking)(it))
  {
    var ls := Each(its + [it], AsLine(booking));
    assert ls[..|ls| - 1] == Each(its, AsLine(booking));
  }

  /** appendToInvoice: what cannot be read or stored is passed over. */
  function AfterBilling(db: Db, org: Id, booking: Option<Id>, its: seq<Item>, f: OrderFaults): Db {
    if booking.None? || f.unread then db
    else
      var k := BillTo(db, org, booking.value);
      if k.None? then db
      else
        var lines := Each(Billed(its, f.lost, |its|), AsLine(booking.value));
        db.(invoices := db.invoices[k.value := AppendLines(db.invoices[k.value], lines)])
  }

  function PlaceOrderError(db: Db, org: Id, booking: Id, qs: seq<ItemRequest>, f: OrderFaults): Option<OrderError> {
    if qs == [] then Some(NoItems)
    else if !InOrg(db.bookings, org, booking) then Some(NoSuchBooking)
    else if db.bookings[booking].status != Confirmed && db.bookings[booking].status != CheckedIn then Some(NotOrderable)
    else StoreError(db, org, qs, f)
  }

  function StoreError(db: Db, org: Id, qs: seq<ItemRequest>, f: OrderFaults): Option<OrderError> {
    var e := ItemsError(db.menu, org, qs, |qs|);
    if e.None? && f.write then Some(NotStored) else e
  }

  /** What the caller is told: a refusal, or an order that was stored but could not be read back. */
  function Answer(refusal: Option<OrderError>, f: OrderFaults): Option<OrderError> {
    if refusal.None? && f.reread then Some(NotReread) else refusal
  }

  /** The order row and its items, stored in one transaction. */
  function WithOrder(db: Db, org: Id, booking: Option<Id>, qs: seq<ItemRequest>, today: int): Db
    requires ItemsError(db.menu, org, qs, |qs|).None?
  {
    WithItems(db.(orders := db.orders + [Order(org, booking, true, today)]), org, |db.orders|, qs)
  }

  function WithItems(db: Db, org: Id, order: nat, qs: seq<ItemRequest>): Db
    requires ItemsError(db.menu, org, qs, |qs|).None?
  {
    db.(items := db.items + NewItems(db.menu, org, order, db.next, qs, |qs|), next := db.next + |qs|)
  }

  /** A stored order that cannot be read back is not billed. */
  function AfterPlace(db: Db, org: Id, booking: Id, qs: seq<ItemRequest>, today: int, f: OrderFaults): Db {
    if PlaceOrderError(db, org, booking, qs, f).Some? then db
    else
      var stored := WithOrder(db, org, Some(booking), qs, today);
      if f.reread then stored
      else AfterBilling(stored, org, Some(booking), NewItems(db.menu, org, |db.orders|, db.next, qs, |qs|), f)
  }

  function WalkInError(db: Db, org: Id, qs: seq<ItemRequest>, f: OrderFaults): Option<OrderError> {
    if qs == [] then Some(NoItems) else StoreError(db, org, qs, f)
  }

  function AfterWalkIn(db: Db, org: Id, qs: seq<ItemRequest>, today: int, f: OrderFaults): Db {
    if WalkInError(db, org, qs, f).Some? then db else WithOrder(db, org, None, qs, today)
  }

  predicate OrderKnown(db: Db, org: Id, order: nat) { order < |db.orders| && db.orders[order].org == org }

  function AddError(db: Db, org: Id, order: nat, qs: seq<ItemRequest>, f: OrderFaults): Option<OrderError> {
    if qs == [] then Some(NoItems)
    else if !OrderKnown(db, org, order) then Some(OrderNotFound)
    else StoreError(db, org, qs, f)
  }

  /** No check that the order is still open. */
  function AfterAdd(db: Db, org: Id, order: nat, qs: seq<ItemRequest>, f: OrderFaults): Db {
    if AddError(db, org, order, qs, f).Some? then db
    else
      var stored := WithItems(db, org, order, qs);
      if f.reread then stored
      else AfterBilling(stored, org, db.orders[order].booking, NewItems(db.menu, org, order, db.next, qs, |qs|), f)
  }

  function RemoveError(db: Db, org: Id, order: nat, item: Id): Option<OrderError> {
    if !OrderKnown(db, org, order) then Some(OrderNotFound)
    else if !db.orders[order].open then Some(OrderClosed)
    else if !exists it | it in db.items :: it.id == item && it.order == order then Some(ItemNotFound)
    else None
  }

  function OtherThan(item: Id): Item -> bool { (it: Item) => it.id != item }

  /** DELETE FROM order_items, and the foreign key of invoice_line_items with it. */
  function WithoutItem(db: Db, item: Id): Db {
    db.(items := Where(db.items, OtherThan(item)), invoices := Each(db.invoices, (inv: Invoice) => Unlink(inv, item)))
  }

  /** RemoveOrderLineItem: looks only for the booking's own invoice. */
  function AfterRemoveLine(db: Db, org: Id, booking: Option<Id>, item: Id): Db {
    if booking.None? then db
    else
      var k := FindOwn(db.invoices, booking.value, org);
      if k.None? then db
      else db.(invoices := db.invoices[k.value := RemoveLine(db.invoices[k.value], item)])
  }

  function AfterRemove(db: Db, org: Id, order: nat, item: Id): Db {
    if RemoveError(db, org, order, item).Some? then db
    else AfterRemoveLine(WithoutItem(db, item), org, db.orders[order].booking, item)
  }

  function ClosedFor(org: Id, today: int): Order -> Order {
    (o: Order) => if o.org == org && o.open && o.createdDay <= today then o.(open := false) else o
  }

  function AfterClose(db: Db, org: Id, today: int): Db { db.(orders := Each(db.orders, ClosedFor(org, today))) }

  function OfOrder(order: nat): Item -> bool { (it: Item) => it.order == order }

  /** The total an order shows: COALESCE(SUM(subtotal), 0). */
  function OrderTotal(items: seq<Item>, order: nat): nat { SumItems(Where(items, OfOrder(order))) }

  function OfBooking(orders: seq<Order>, booking: Id): Item -> bool {
    (it: Item) => it.order < |orders| && orders[it.order].booking == Some(booking)
  }

  /** The totals of the booking's orders among the first n, added up. */
  function OrdersTotal(orders: seq<Order>, items: seq<Item>, booking: Id, n: nat): nat
    requires n <= |orders|
  {
    if n == 0 then 0
    else
      OrdersTotal(orders, items, booking, n - 1)
        + (if orders[n - 1].booking == Some(booking) then OrderTotal(items, n - 1) else 0)
  }

  lemma OrderTotalOneMore(items: seq<Item>, it: Item, order: nat)
    ensures OrderTotal(items + [it], order) == OrderTotal(items, order) + if it.order == order then it.subtotal else 0
  {
    WhereConcat(items, [it], OfOrder(order));
    assert [it][..0] == [];
    SumItemsConcat(Where(items, OfOrder(order)), Where([it], OfOrder(order)));
  }

  lemma {:induction false} TotalsDiffer(orders: seq<Order>, a: seq<Item>, b: seq<Item>, it: Item, booking: Id, n: nat)
    requires n <= |orders|
    requires forall o: nat :: OrderTotal(b, o) == OrderTotal(a, o) + if it.order == o then it.subtotal else 0
    ensures OrdersTotal(orders, b, booking, n) == OrdersTotal(orders, a, booking, n)
      + if it.order < n && orders[it.order].booking == Some(booking) then it.subtotal else 0
  {
    if n > 0 { TotalsDiffer(orders, a, b, it, booking, n - 1); }
  }

  lemma OrdersTotalOneMore(orders: seq<Order>, items: seq<Item>, it: Item, booking: Id)
    ensures OrdersTotal(orders, items + [it], booking, |orders|) == OrdersTotal(orders, items, booking, |orders|)
      + if OfBooking(orders, booking)(it) then it.subtotal else 0
  {
    forall o: nat
      ensures OrderTotal(items + [it], o) == OrderTotal(items, o) + if it.order == o then it.subtotal else 0 {
      OrderTotalOneMore(items, it, o);
    }
    TotalsDiffer(orders, items, items + [it], it, booking, |orders|);
  }

  lemma {:induction false} OrdersTotalNothing(orders: seq<Order>, booking: Id, n: nat)
    requires n <= |orders|
    ensures OrdersTotal(orders, [], booking, n) == 0
  {
    if n > 0 { OrdersTotalNothing(orders, booking, n - 1); }
  }

  /** Order by order or item by item: the same money. */
  lemma {:induction false} OrdersTotalIsItemsTotal(orders: seq<Order>, items: seq<Item>, booking: Id)
    ensures OrdersTotal(orders, items, booking, |orders|) == SumItems(Where(items, OfBooking(orders, booking)))
  {
    if items == [] {
      OrdersTotalNothing(orders, booking, |orders|);
    } else {
      var init, it := items[..|items| - 1], items[|items| - 1];
      OrdersTotalIsItemsTotal(orders, init, booking);
      OrdersTotalOneMore(orders, init, it, booking);
      assert items == init + [it];
      SumItemsConcat(Where(init, OfBooking(orders, booking)), [it]);
      assert [it][..0] == [];
    }
  }
}
