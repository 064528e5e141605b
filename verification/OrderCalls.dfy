/** What the order calls promise their callers, column by column: which requests are accepted, what is
    then in the tables, and which invoice carries which line. */
module OrderCalls {
  import opened Prelude
  import opened Schema
  import opened Reservations
  import opened Billing
  import opened LodgeSteps
  import opened BillingRuns
  import opened BillingTheorems
  import opened CompanyBills

  // ---------- which orders are accepted ----------

  predicate OnTheMenu(menu: map<Id, MenuItem>, org: Id, q: ItemRequest) {
    q.menuItem in menu && menu[q.menuItem].org == org && q.quantity > 0
  }

  lemma {:induction false} ItemsAreAcceptedIff(menu: map<Id, MenuItem>, org: Id, qs: seq<ItemRequest>, n: nat)
    requires n <= |qs|
    ensures ItemsError(menu, org, qs, n).None? <==> forall i: nat | i < n :: OnTheMenu(menu, org, qs[i])
  {
    if n > 0 { ItemsAreAcceptedIff(menu, org, qs, n - 1); }
  }

  lemma PlaceIsAcceptedIff(db: Db, org: Id, b: Id, qs: seq<ItemRequest>, f: OrderFaults)
    ensures PlaceOrderError(db, org, b, qs, f).None? <==>
      && qs != [] && !f.write && b in db.bookings && db.bookings[b].org == org
      && (db.bookings[b].status == Confirmed || db.bookings[b].status == CheckedIn)
      && forall i: nat | i < |qs| :: OnTheMenu(db.menu, org, qs[i])
  {
    ItemsAreAcceptedIff(db.menu, org, qs, |qs|);
  }

  lemma WalkInIsAcceptedIff(db: Db, org: Id, qs: seq<ItemRequest>, f: OrderFaults)
    ensures WalkInError(db, org, qs, f).None? <==>
      qs != [] && !f.write && forall i: nat | i < |qs| :: OnTheMenu(db.menu, org, qs[i])
  {
    ItemsAreAcceptedIff(db.menu, org, qs, |qs|);
  }

  lemma AddIsAcceptedIff(db: Db, org: Id, order: nat, qs: seq<ItemRequest>, f: OrderFaults)
    ensures AddError(db, org, order, qs, f).None? <==>
      && qs != [] && !f.write && order < |db.orders| && db.orders[order].org == org
      && forall i: nat | i < |qs| :: OnTheMenu(db.menu, org, qs[i])
  {
    ItemsAreAcceptedIff(db.menu, org, qs, |qs|);
  }

  lemma RemoveIsAcceptedIff(db: Db, org: Id, order: nat, item: Id)
    ensures RemoveError(db, org, order, item).None? <==>
      && order < |db.orders| && db.orders[order].org == org && db.orders[order].open
      && exists k :: 0 <= k < |db.items| && db.items[k].id == item && db.items[k].order == order
  {}

  /** A refusal names something that is the case. */
  lemma {:induction false} ItemsRefusalIsTrue(menu: map<Id, MenuItem>, org: Id, qs: seq<ItemRequest>, n: nat)
    requires n <= |qs|
    ensures match ItemsError(menu, org, qs, n)
      case Some(MenuItemMissing(i)) =>
        i < n && (qs[i].menuItem in menu ==> menu[qs[i].menuItem].org != org)
        && forall k: nat | k < i :: OnTheMenu(menu, org, qs[k])
      case Some(BadQuantity(i)) => i < n && qs[i].quantity <= 0 && forall k: nat | k < i :: OnTheMenu(menu, org, qs[k])
      case Some(_) => false
      case None => true
  {
    if n > 0 {
      ItemsRefusalIsTrue(menu, org, qs, n - 1);
      ItemsAreAcceptedIff(menu, org, qs, n - 1);
    }
  }

  lemma OrderRefusalIsTrue(db: Db, org: Id, b: Id, order: nat, item: Id, qs: seq<ItemRequest>, f: OrderFaults)
    ensures PlaceOrderError(db, org, b, qs, f) == Some(NoItems) <==> qs == []
    ensures PlaceOrderError(db, org, b, qs, f) == Some(NoSuchBooking) ==> b in db.bookings ==> db.bookings[b].org != org
    ensures PlaceOrderError(db, org, b, qs, f) == Some(NotOrderable) ==>
      b in db.bookings && db.bookings[b].status != Confirmed && db.bookings[b].status != CheckedIn
    ensures AddError(db, org, order, qs, f) == Some(OrderNotFound) ==>
      order < |db.orders| ==> db.orders[order].org != org
    ensures RemoveError(db, org, order, item) == Some(OrderNotFound) <==>
      (order < |db.orders| ==> db.orders[order].org != org)
    ensures RemoveError(db, org, order, item) == Some(OrderClosed) ==> order < |db.orders| && !db.orders[order].open
    ensures RemoveError(db, org, order, item) == Some(ItemNotFound) ==>
      forall it | it in db.items && it.id == item :: it.order != order
  {
    ItemsRefusalIsTrue(db.menu, org, qs, |qs|);
  }

  // ---------- what they store ----------

  /** One row per request, in their order, at the menu's prices. */
  ghost predicate ItemsTaken(db: Db, after: Db, order: nat, qs: seq<ItemRequest>) {
    && |after.items| == |db.items| + |qs| && after.items[..|db.items|] == db.items && after.next == db.next + |qs|
    && forall i: nat | i < |qs| ::
         var it := after.items[|db.items| + i];
         && it.id == db.next + i && it.order == order
         && qs[i].menuItem in db.menu && it.unitPrice == db.menu[qs[i].menuItem].price
         && it.quantity == qs[i].quantity && it.subtotal == it.quantity * it.unitPrice
  }

  ghost predicate OrderTaken(db: Db, after: Db, org: Id, booking: Option<Id>, today: int) {
    && |after.orders| == |db.orders| + 1 && after.orders[..|db.orders|] == db.orders
    && var o := after.orders[|db.orders|];
       o.org == org && o.booking == booking && o.open && o.createdDay == today
  }

  /** Rooms, clients, companies, bookings and menu. */
  ghost predicate RestAlone(db: Db, after: Db) {
    && after.rooms == db.rooms && after.individuals == db.individuals && after.companies == db.companies
    && after.bookings == db.bookings && after.menu == db.menu
  }

  lemma BillingStoresNothingElse(db: Db, org: Id, booking: Option<Id>, its: seq<Item>, f: OrderFaults)
    ensures AfterBilling(db, org, booking, its, f).(invoices := db.invoices) == db
  {}

  lemma ItemsAreTaken(db: Db, after: Db, org: Id, order: nat, qs: seq<ItemRequest>)
    requires ItemsError(db.menu, org, qs, |qs|).None? && after.next == db.next + |qs|
    requires after.items == db.items + NewItems(db.menu, org, order, db.next, qs, |qs|)
    ensures ItemsTaken(db, after, order, qs)
  {}

  lemma PlaceStores(db: Db, org: Id, b: Id, qs: seq<ItemRequest>, today: int, f: OrderFaults)
    ensures var after := AfterPlace(db, org, b, qs, today, f);
      if PlaceOrderError(db, org, b, qs, f).Some? then after == db
      else
        RestAlone(db, after) && OrderTaken(db, after, org, Some(b), today) && ItemsTaken(db, after, |db.orders|, qs)
  {
    if PlaceOrderError(db, org, b, qs, f).None? {
      var after, stored := AfterPlace(db, org, b, qs, today, f), WithOrder(db, org, Some(b), qs, today);
      BillingStoresNothingElse(stored, org, Some(b), NewItems(db.menu, org, |db.orders|, db.next, qs, |qs|), f);
      assert after.(invoices := db.invoices) == stored;
      ItemsAreTaken(db, after, org, |db.orders|, qs);
    }
  }

  lemma WalkInStores(db: Db, org: Id, qs: seq<ItemRequest>, today: int, f: OrderFaults)
    ensures var after := AfterWalkIn(db, org, qs, today, f);
      if WalkInError(db, org, qs, f).Some? then after == db
      else
        && RestAlone(db, after) && OrderTaken(db, after, org, None, today) && ItemsTaken(db, after, |db.orders|, qs)
        && after.invoices == db.invoices
  {
    if WalkInError(db, org, qs, f).None? {
      ItemsAreTaken(db, AfterWalkIn(db, org, qs, today, f), org, |db.orders|, qs);
    }
  }

  lemma AddStores(db: Db, org: Id, order: nat, qs: seq<ItemRequest>, f: OrderFaults)
    ensures var after := AfterAdd(db, org, order, qs, f);
      if AddError(db, org, order, qs, f).Some? then after == db
      else RestAlone(db, after) && after.orders == db.orders && ItemsTaken(db, after, order, qs)
  {
    if AddError(db, org, order, qs, f).None? {
      var after, stored := AfterAdd(db, org, order, qs, f), WithItems(db, org, order, qs);
      BillingStoresNothingElse(stored, org, db.orders[order].booking,
        NewItems(db.menu, org, order, db.next, qs, |qs|), f);
      assert after.(invoices := db.invoices) == stored;
      ItemsAreTaken(db, after, org, order, qs);
    }
  }

  lemma UnlinkedColumnwise(inv: Invoice, item: Id, j: nat)
    requires j < |inv.lines|
    ensures |Unlink(inv, item).lines| == |inv.lines| && Unlink(inv, item).(lines := inv.lines) == inv
    ensures Unlink(inv, item).lines[j]
      == inv.lines[j].(orderItem := if inv.lines[j].orderItem == Some(item) then None else inv.lines[j].orderItem)
  {}

  /** Taking an item off: it is gone from the items, its lines forget it, and that is all; in particular no
      line goes and no amount changes. */
  lemma RemoveTakesExactly(db: Db, org: Id, order: nat, item: Id)
    requires Books(db)
    ensures var after := AfterRemove(db, org, order, item);
      if RemoveError(db, org, order, item).Some? then after == db
      else
        && RestAlone(db, after) && after.orders == db.orders && after.next == db.next
        && (forall it :: it in after.items <==> it in db.items && it.id != item)
        && |after.invoices| == |db.invoices|
        && forall k, j | 0 <= k < |db.invoices| && 0 <= j < |db.invoices[k].lines| ::
             var was, now := db.invoices[k], after.invoices[k];
             && now.(lines := was.lines) == was && |now.lines| == |was.lines|
             && now.lines[j] == was.lines[j].(orderItem :=
                  if was.lines[j].orderItem == Some(item) then None else was.lines[j].orderItem)
  {
    if RemoveError(db, org, order, item).None? {
      forall k | 0 <= k < |db.invoices| ensures Balanced(db.invoices[k]) { assert InvoiceOk(db, db.invoices[k]); }
      RemovalOnlyOrphans(db, org, order, item);
      forall k, j | 0 <= k < |db.invoices| && 0 <= j < |db.invoices[k].lines|
        ensures var was, now := db.invoices[k], Unlink(db.invoices[k], item);
          && now.(lines := was.lines) == was && |now.lines| == |was.lines|
          && now.lines[j] == was.lines[j].(orderItem :=
               if was.lines[j].orderItem == Some(item) then None else was.lines[j].orderItem)
      { UnlinkedColumnwise(db.invoices[k], item, j); }
    }
  }

  /** What RemoveOrderLineItem does where the foreign key has not been first: on the booking's own invoice
      the item's lines go, the others stay, the amounts follow; no other invoice is touched. */
  lemma RemoveLineTakesExactly(db: Db, org: Id, b: Id, item: Id, k: nat)
    requires Books(db) && k < |db.invoices|
    ensures var after, was := AfterRemoveLine(db, org, Some(b), item), db.invoices[k];
      && after.(invoices := db.invoices) == db && |after.invoices| == |db.invoices|
      && if was.booking == Some(b) && was.org == org then
           && SameButLines(after.invoices[k], was) && Balanced(after.invoices[k])
           && forall l :: l in after.invoices[k].lines <==> l in was.lines && l.orderItem != Some(item)
         else after.invoices[k] == was
  {
    assert InvoiceOk(db, db.invoices[k]);
    RecalculationIsExact(db.invoices[k].(lines := Where(db.invoices[k].lines, NotFor(item))));
  }

  /** Closing the day: the organisation's open orders up to today, and nothing else of anything. */
  lemma CloseClosesExactly(db: Db, org: Id, today: int, k: nat)
    requires k < |db.orders|
    ensures var after, was := AfterClose(db, org, today), db.orders[k];
      && after.(orders := db.orders) == db && |after.orders| == |db.orders|
      && after.orders[k].(open := was.open) == was
      && (after.orders[k].open <==> was.open && (was.org != org || was.createdDay > today))
  {}

  // ---------- which invoice carries the lines ----------

  /** The invoice that what is ordered on this booking goes to: the company's, or the stay's own. */
  predicate Pays(db: Db, b: Id, inv: Invoice) {
    && b in db.bookings && inv.org == db.bookings[b].org
    && if db.bookings[b].company.Some? then inv.company == db.bookings[b].company else inv.booking == Some(b)
  }

  /** The requests whose line reaches the invoice, in their order. */
  function Reaching(qs: seq<ItemRequest>, f: OrderFaults): (r: seq<nat>)
    ensures forall j | 0 <= j < |r| :: r[j] < |qs| && !Loses(f, r[j])
    ensures forall i | 0 <= i < |qs| && !Loses(f, i) :: i in r
    ensures forall j, k | 0 <= j < k < |r| :: r[j] < r[k]
  {
    if f.reread || f.unread then [] else Readable(|qs|, f.lost)
  }

  /** A line for this request: booking, order, item, quantity, price and their product. */
  ghost predicate LineOf(db: Db, b: Id, order: nat, i: nat, q: ItemRequest, l: Line) {
    && l.booking == Some(b) && l.order == Some(order) && l.orderItem == Some(db.next + i)
    && q.menuItem in db.menu && l.unitPrice == db.menu[q.menuItem].price
    && l.quantity == q.quantity && l.total == l.quantity * l.unitPrice
  }

  /** The lines of the requests that reach the invoice. */
  ghost predicate LinesOf(db: Db, b: Id, order: nat, qs: seq<ItemRequest>, seen: seq<nat>, lines: seq<Line>)
    requires forall j | 0 <= j < |seen| :: seen[j] < |qs|
  {
    |lines| == |seen| && forall j: nat | j < |seen| :: LineOf(db, b, order, seen[j], qs[seen[j]], lines[j])
  }

  /** One line more for each request that reached the invoice, amounts to match, no other column touched. */
  ghost predicate BilledAs(db: Db, b: Id, order: nat, qs: seq<ItemRequest>, f: OrderFaults,
                           was: Invoice, now: Invoice) {
    && SameButLines(now, was) && Balanced(now)
    && was.lines <= now.lines && LinesOf(db, b, order, qs, Reaching(qs, f), now.lines[|was.lines|..])
  }

  lemma {:induction false} BilledAreReadable(its: seq<Item>, lost: set<nat>, n: nat)
    requires n <= |its|
    ensures var billed, seen := Billed(its, lost, n), Readable(n, lost);
      |billed| == |seen| && forall j | 0 <= j < |seen| :: billed[j] == its[seen[j]]
  {
    if n > 0 { BilledAreReadable(its, lost, n - 1); }
  }

  lemma ItemsLine(db: Db, org: Id, b: Id, order: nat, qs: seq<ItemRequest>, i: nat)
    requires ItemsError(db.menu, org, qs, |qs|).None? && i < |qs|
    ensures LineOf(db, b, order, i, qs[i], AsLine(b)(NewItems(db.menu, org, order, db.next, qs, |qs|)[i]))
  {}

  lemma ReachedLines(db: Db, org: Id, b: Id, order: nat, qs: seq<ItemRequest>, f: OrderFaults)
    requires ItemsError(db.menu, org, qs, |qs|).None? && !f.reread && !f.unread
    ensures var its := NewItems(db.menu, org, order, db.next, qs, |qs|);
      LinesOf(db, b, order, qs, Reaching(qs, f), Each(Billed(its, f.lost, |its|), AsLine(b)))
  {
    var its, seen := NewItems(db.menu, org, order, db.next, qs, |qs|), Reaching(qs, f);
    BilledAreReadable(its, f.lost, |its|);
    forall j: nat | j < |seen| ensures LineOf(db, b, order, seen[j], qs[seen[j]], AsLine(b)(its[seen[j]])) {
      ItemsLine(db, org, b, order, qs, seen[j]);
    }
  }

  lemma AppendedAsBilled(db: Db, b: Id, order: nat, qs: seq<ItemRequest>, f: OrderFaults, inv: Invoice,
                         lines: seq<Line>)
    requires Balanced(inv) && LinesOf(db, b, order, qs, Reaching(qs, f), lines)
    ensures BilledAs(db, b, order, qs, f, inv, AppendLines(inv, lines))
  {
    AppendedLines(inv, lines);
    assert (inv.lines + lines)[|inv.lines|..] == lines;
  }

  lemma LinesAreBilled(db: Db, org: Id, b: Id, order: nat, qs: seq<ItemRequest>, f: OrderFaults, inv: Invoice)
    requires ItemsError(db.menu, org, qs, |qs|).None? && Balanced(inv) && !f.reread && !f.unread
    ensures var its := NewItems(db.menu, org, order, db.next, qs, |qs|);
      BilledAs(db, b, order, qs, f, inv, AppendLines(inv, Each(Billed(its, f.lost, |its|), AsLine(b))))
  {
    var its := NewItems(db.menu, org, order, db.next, qs, |qs|);
    ReachedLines(db, org, b, order, qs, f);
    AppendedAsBilled(db, b, order, qs, f, inv, Each(Billed(its, f.lost, |its|), AsLine(b)));
  }

  lemma OnlyOnePays(db: Db, org: Id, b: Id, k: nat)
    requires Books(db) && OnePerCompany(db.invoices) && InOrg(db.bookings, org, b) && k < |db.invoices|
    ensures Pays(db, b, db.invoices[k]) <==> BillTo(db, org, b) == Some(k)
  {}

  lemma LossesLeaveInvoices(db: Db, b: Id, order: nat, qs: seq<ItemRequest>, f: OrderFaults, inv: Invoice)
    requires Balanced(inv) && (f.reread || f.unread)
    ensures BilledAs(db, b, order, qs, f, inv, inv)
  {}

  /** Every invoice after the call, given what is billed. */
  ghost predicate BillsExactly(db: Db, after: Db, b: Id, order: nat, qs: seq<ItemRequest>, f: OrderFaults) {
    && |after.invoices| == |db.invoices|
    && forall k | 0 <= k < |db.invoices| ::
         if Pays(db, b, db.invoices[k]) then BilledAs(db, b, order, qs, f, db.invoices[k], after.invoices[k])
         else after.invoices[k] == db.invoices[k]
  }

  lemma BilledAt(db: Db, stored: Db, org: Id, b: Id, its: seq<Item>, f: OrderFaults, k: nat)
    requires k < |db.invoices| && stored.bookings == db.bookings && stored.invoices == db.invoices
    ensures var after := if f.reread then stored else AfterBilling(stored, org, Some(b), its, f);
      && |after.invoices| == |db.invoices|
      && after.invoices[k] == if f.reread || f.unread || BillTo(db, org, b) != Some(k) then db.invoices[k]
           else AppendLines(db.invoices[k], Each(Billed(its, f.lost, |its|), AsLine(b)))
  {
    assert BillTo(stored, org, b) == BillTo(db, org, b);
  }

  lemma BillingIsExactAt(db: Db, stored: Db, org: Id, b: Id, order: nat, qs: seq<ItemRequest>, f: OrderFaults, k: nat)
    requires Books(db) && OnePerCompany(db.invoices) && InOrg(db.bookings, org, b) && k < |db.invoices|
    requires ItemsError(db.menu, org, qs, |qs|).None?
    requires stored.bookings == db.bookings && stored.invoices == db.invoices
    ensures var its := NewItems(db.menu, org, order, db.next, qs, |qs|);
      var after := if f.reread then stored else AfterBilling(stored, org, Some(b), its, f);
      |after.invoices| == |db.invoices|
      && if Pays(db, b, db.invoices[k]) then BilledAs(db, b, order, qs, f, db.invoices[k], after.invoices[k])
         else after.invoices[k] == db.invoices[k]
  {
    BilledAt(db, stored, org, b, NewItems(db.menu, org, order, db.next, qs, |qs|), f, k);
    OnlyOnePays(db, org, b, k);
    assert Balanced(db.invoices[k]) by { assert InvoiceOk(db, db.invoices[k]); }
    if f.reread || f.unread { LossesLeaveInvoices(db, b, order, qs, f, db.invoices[k]); }
    else { LinesAreBilled(db, org, b, order, qs, f, db.invoices[k]); }
  }

  lemma BillingIsExact(db: Db, stored: Db, org: Id, b: Id, order: nat, qs: seq<ItemRequest>, f: OrderFaults)
    requires Books(db) && OnePerCompany(db.invoices) && InOrg(db.bookings, org, b)
    requires ItemsError(db.menu, org, qs, |qs|).None?
    requires stored.bookings == db.bookings && stored.invoices == db.invoices
    ensures var its := NewItems(db.menu, org, order, db.next, qs, |qs|);
      BillsExactly(db, if f.reread then stored else AfterBilling(stored, org, Some(b), its, f), b, order, qs, f)
  {
    var its := NewItems(db.menu, org, order, db.next, qs, |qs|);
    var after := if f.reread then stored else AfterBilling(stored, org, Some(b), its, f);
    forall k: nat | k < |db.invoices|
      ensures if Pays(db, b, db.invoices[k]) then BilledAs(db, b, order, qs, f, db.invoices[k], after.invoices[k])
        else after.invoices[k] == db.invoices[k]
    { BillingIsExactAt(db, stored, org, b, order, qs, f, k); }
    assert |after.invoices| == |db.invoices|;
  }

  /** An order placed on a stay puts exactly one line per item that is not lost on the invoice that pays
      for it, the company's or its own, and changes no other. */
  lemma PlaceIsBilledTo(db: Db, org: Id, b: Id, qs: seq<ItemRequest>, today: int, f: OrderFaults)
    requires Books(db) && OnePerCompany(db.invoices) && PlaceOrderError(db, org, b, qs, f).None?
    ensures BillsExactly(db, AfterPlace(db, org, b, qs, today, f), b, |db.orders|, qs, f)
  {
    BillingIsExact(db, WithOrder(db, org, Some(b), qs, today), org, b, |db.orders|, qs, f);
  }

  /** The same of items added to an order; what belongs to no stay is billed to nobody. */
  lemma AddIsBilledTo(db: Db, org: Id, order: nat, qs: seq<ItemRequest>, f: OrderFaults)
    requires Books(db) && OnePerCompany(db.invoices) && AddError(db, org, order, qs, f).None?
    ensures var after, booking := AfterAdd(db, org, order, qs, f), db.orders[order].booking;
      if booking.Some? then BillsExactly(db, after, booking.value, order, qs, f) else after.invoices == db.invoices
  {
    if db.orders[order].booking.Some? {
      assert db.orders[order] in db.orders;
      BillingIsExact(db, WithItems(db, org, order, qs), org, db.orders[order].booking.value, order, qs, f);
    }
  }
}
