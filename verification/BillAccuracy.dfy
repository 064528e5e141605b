/** What an own invoice says about the orders behind it, over runs in which lines may get lost: when it
    mirrors them line for line, and when its amount is the right one. */
module BillAccuracy {
  import opened Prelude
  import opened Schema
  import opened Reservations
  import opened Billing
  import opened LodgeSteps
  import opened BookingRuns
  import opened BillingRuns
  import opened BillingTheorems
  import opened Runs

  /** The live items of b's orders. */
  function Ordered(db: Db, b: Id): seq<Item> { Where(db.items, OfBooking(db.orders, b)) }

  /** Line for line, the linked lines of an own invoice are the live items of its booking's orders:
      same item, order, quantity, price and total. */
  ghost predicate Mirrors(db: Db, inv: Invoice) {
    inv.booking.Some? ==> Where(inv.lines, IsLinked) == Each(Ordered(db, inv.booking.value), AsLine(inv.booking.value))
  }

  ghost predicate Mirrored(db: Db) { forall k | 0 <= k < |db.invoices| :: Mirrors(db, db.invoices[k]) }

  /** An own invoice asks for the room and the booking's orders as they stand, and nothing else. */
  ghost predicate Right(db: Db, inv: Invoice) {
    inv.booking.Some? ==>
      inv.subtotal == RoomCharge(inv) + OrdersTotal(db.orders, db.items, inv.booking.value, |db.orders|)
  }

  ghost predicate AllRight(db: Db) { forall k | 0 <= k < |db.invoices| :: Right(db, db.invoices[k]) }

  /** What was taken off an order but not off the bill. */
  function StillCharged(inv: Invoice): nat { SumLines(Where(inv.lines, IsOrphan)) }

  /** Everything on the bill but the room. */
  function Extras(inv: Invoice): nat { SumLines(Where(inv.lines, IsLinked)) + StillCharged(inv) }

  ghost predicate Squares(db: Db, inv: Invoice) {
    inv.booking.Some? ==> Extras(inv) == SumItems(Ordered(db, inv.booking.value))
  }

  lemma RightIsSquare(db: Db, inv: Invoice)
    requires Balanced(inv)
    ensures Right(db, inv) <==> Squares(db, inv)
  {
    SumSplits(inv.lines);
    if inv.booking.Some? { OrdersTotalIsItemsTotal(db.orders, db.items, inv.booking.value); }
  }

  ghost predicate AllSquare(db: Db) { forall k | 0 <= k < |db.invoices| :: Squares(db, db.invoices[k]) }

  lemma AllRightIsAllSquare(db: Db)
    requires Books(db)
    ensures AllRight(db) <==> AllSquare(db)
  {
    forall k | 0 <= k < |db.invoices| ensures Right(db, db.invoices[k]) <==> Squares(db, db.invoices[k]) {
      assert InvoiceOk(db, db.invoices[k]);
      RightIsSquare(db, db.invoices[k]);
    }
  }

  // ---------- calls that bill nothing ----------

  ghost predicate Steady(db: Db, after: Db, inv: Invoice, now: Invoice) {
    && now.booking == inv.booking
    && (Mirrors(db, inv) ==> Mirrors(after, now))
    && (Squares(db, inv) ==> Squares(after, now))
  }

  /** Every own invoice keeps step with the orders, and new ones start in step. */
  ghost predicate Faithful(db: Db, after: Db) {
    && |db.invoices| <= |after.invoices|
    && (forall k | 0 <= k < |db.invoices| :: Steady(db, after, db.invoices[k], after.invoices[k]))
    && (forall k | |db.invoices| <= k < |after.invoices| ::
          Mirrors(after, after.invoices[k]) && Squares(after, after.invoices[k]))
  }

  lemma FaithfulKeeps(db: Db, after: Db)
    requires Faithful(db, after)
    ensures Mirrored(db) ==> Mirrored(after)
    ensures AllSquare(db) ==> AllSquare(after)
  {
    forall k | 0 <= k < |db.invoices| ensures Steady(db, after, db.invoices[k], after.invoices[k]) {}
  }

  lemma FaithfulTwice(a: Db, b: Db, c: Db)
    requires Faithful(a, b) && Faithful(b, c)
    ensures Faithful(a, c)
  {
    forall k | 0 <= k < |a.invoices| ensures Steady(a, c, a.invoices[k], c.invoices[k]) {
      assert Steady(a, b, a.invoices[k], b.invoices[k]) && Steady(b, c, b.invoices[k], c.invoices[k]);
    }
    forall k | |a.invoices| <= k < |c.invoices| ensures Mirrors(c, c.invoices[k]) && Squares(c, c.invoices[k]) {
      if k < |b.invoices| { assert Steady(b, c, b.invoices[k], c.invoices[k]); }
    }
  }

  ghost predicate SameLines(a: seq<Invoice>, b: seq<Invoice>) {
    |a| == |b| && forall k | 0 <= k < |a| :: b[k].booking == a[k].booking && b[k].lines == a[k].lines
  }

  lemma SameItemsSameLines(db: Db, after: Db)
    requires SameLines(db.invoices, after.invoices)
    requires forall k | 0 <= k < |db.invoices| && db.invoices[k].booking.Some? ::
      Ordered(after, db.invoices[k].booking.value) == Ordered(db, db.invoices[k].booking.value)
    ensures Faithful(db, after)
  {}

  /** Bookings, clients, rooms and due dates do not matter. */
  lemma OrdersAlone(db: Db, after: Db)
    requires after.orders == db.orders && after.items == db.items && SameLines(db.invoices, after.invoices)
    ensures Faithful(db, after)
  {
    SameItemsSameLines(db, after);
  }

  lemma CloseIsFaithful(db: Db, org: Id, today: int)
    ensures Faithful(db, AfterClose(db, org, today))
  {
    var after := AfterClose(db, org, today);
    forall k | 0 <= k < |db.invoices| && db.invoices[k].booking.Some?
      ensures Ordered(after, db.invoices[k].booking.value) == Ordered(db, db.invoices[k].booking.value)
    {
      var b := db.invoices[k].booking.value;
      WhereAgree(db.items, OfBooking(after.orders, b), OfBooking(db.orders, b));
    }
    SameItemsSameLines(db, after);
  }

  lemma DetachedLines(ls: seq<Line>, its: seq<Item>, b: Id, id: Id)
    requires b != id
    ensures Where(ls, IsLinked) == Each(its, AsLine(b)) ==>
      Where(Each(ls, LineDetached(id)), IsLinked) == Each(its, AsLine(b))
    ensures SumLines(Where(Each(ls, LineDetached(id)), IsLinked)) == SumLines(Where(ls, IsLinked))
    ensures SumLines(Where(Each(ls, LineDetached(id)), IsOrphan)) == SumLines(Where(ls, IsOrphan))
  {
    var f := LineDetached(id);
    WhereEach(ls, f, IsLinked, IsLinked);
    WhereEach(ls, f, IsOrphan, IsOrphan);
    SumKept(Where(ls, IsLinked), f);
    SumKept(Where(ls, IsOrphan), f);
    assert Each(Each(its, AsLine(b)), f) == Each(its, AsLine(b));
  }

  lemma DeleteIsFaithful(db: Db, org: Id, id: Id)
    requires Books(db)
    ensures Faithful(db, AfterDelete(db, org, id))
  {
    var after := AfterDelete(db, org, id);
    if DeleteError(db, org, id).None? {
      forall k | 0 <= k < |db.invoices| ensures Steady(db, after, db.invoices[k], after.invoices[k]) {
        var inv := db.invoices[k];
        if inv.booking.Some? {
          var b := inv.booking.value;
          assert inv in db.invoices;
          DetachedLines(inv.lines, Ordered(db, b), b, id);
          WhereAgree(db.items, OfBooking(after.orders, b), OfBooking(db.orders, b));
        }
      }
    } else {
      OrdersAlone(db, after);
    }
  }

  lemma RechargedLines(ls: seq<Line>, nights: nat, price: nat)
    requires forall l | l in ls && l.orderItem.Some? :: l.order.Some?
    ensures Where(Each(ls, Recharged(nights, price)), IsLinked) == Where(ls, IsLinked)
    ensures Where(Each(ls, Recharged(nights, price)), IsOrphan) == Where(ls, IsOrphan)
  {
    var f := Recharged(nights, price);
    WhereEach(ls, f, IsLinked, IsLinked);
    WhereEach(ls, f, IsOrphan, IsOrphan);
    assert Each(Where(ls, IsLinked), f) == Where(ls, IsLinked);
    assert Each(Where(ls, IsOrphan), f) == Where(ls, IsOrphan);
  }

  lemma RechargeIsFaithful(db: Db, org: Id, id: Id, today: int, lost: bool)
    requires Books(db)
    ensures Faithful(db, AfterRecharge(db, org, id, today, lost))
  {
    var after := AfterRecharge(db, org, id, today, lost);
    forall k | 0 <= k < |db.invoices| ensures Steady(db, after, db.invoices[k], after.invoices[k]) {
      assert InvoiceOk(db, db.invoices[k]);
      if after.invoices[k] != db.invoices[k] {
        RechargedLines(db.invoices[k].lines, Nights(db.bookings[id]), db.rooms[db.bookings[id].room].price);
      }
    }
  }

  lemma NothingOrdered(db: Db, b: Id)
    requires Filed(db) && forall o | o in db.orders :: o.booking != Some(b)
    ensures Ordered(db, b) == []
  {
    forall it | it in db.items ensures !OfBooking(db.orders, b)(it) {
      assert db.orders[it.order] in db.orders;
    }
    WhereNone(db.items, OfBooking(db.orders, b));
  }

  /** A stay confirmed for the first time has no orders yet, so its invoice starts in step. */
  lemma GenerateIsFaithful(db: Db, org: Id, b: Id, year: nat, f: InvoiceFaults)
    requires Books(db) && InOrg(db.bookings, org, b)
    requires forall o | o in db.orders :: o.booking != Some(b)
    ensures Faithful(db, AfterGenerate(db, org, b, year, f))
  {
    GenerateIsOneOrNone(db, org, b, year, f);
    var inv := RoomInvoice(db, org, b, year);
    NothingOrdered(db, b);
    OnlyRoom(inv.lines[0]);
    OneMoreIsFaithful(db, inv);
    OrdersAlone(db, db);
  }

  lemma OnlyRoom(l: Line)
    requires IsRoom(l)
    ensures Where([l], IsLinked) == [] && Where([l], IsOrphan) == []
  {
    WhereNone([l], IsLinked);
    WhereNone([l], IsOrphan);
  }

  lemma OneMoreIsFaithful(db: Db, inv: Invoice)
    requires Where(inv.lines, IsLinked) == [] && Where(inv.lines, IsOrphan) == []
    requires inv.booking.Some? ==> Ordered(db, inv.booking.value) == []
    ensures Faithful(db, db.(invoices := db.invoices + [inv]))
  {
    var after := db.(invoices := db.invoices + [inv]);
    forall k | 0 <= k < |db.invoices| ensures Steady(db, after, db.invoices[k], after.invoices[k]) {
      assert after.invoices[k] == db.invoices[k];
    }
    assert after.invoices[|db.invoices|] == inv;
  }

  lemma StatusIsFaithful(db: Db, org: Id, id: Id, to: Status, year: nat, f: StatusFaults)
    requires Books(db)
    ensures Faithful(db, AfterStatus(db, org, id, to, year, f))
  {
    if Unwritten(StatusError(db.bookings, org, id, to), f.write).None? {
      var stored := db.(bookings := Restated(db.bookings, id, to));
      RestatedKeepsBooks(db, org, id, to);
      OrdersAlone(db, stored);
      if to == Confirmed && db.bookings[id].company.None? {
        assert db.bookings[id].status == Pending;
        GenerateIsFaithful(stored, org, id, year, f.invoice);
        FaithfulTwice(db, stored, AfterGenerate(stored, org, id, year, f.invoice));
      }
    } else {
      OrdersAlone(db, db);
    }
  }

  lemma UpdateIsFaithful(db: Db, org: Id, id: Id, e: Edit, today: int, f: EditFaults)
    requires Books(db)
    ensures Faithful(db, AfterUpdate(db, org, id, e, today, f))
  {
    if Unwritten(UpdateError(db.bookings, org, id, e), f.write).None? {
      var stored := db.(bookings := db.bookings[id := Edited(db.bookings[id], e)]);
      BookingsMoved(db, stored);
      OrdersAlone(db, stored);
      RechargeIsFaithful(stored, org, id, today, f.recharge);
      FaithfulTwice(db, stored, AfterRecharge(stored, org, id, today, f.recharge));
    } else {
      OrdersAlone(db, db);
    }
  }

  lemma CorporateIsFaithful(db: Db, org: Id, q: BatchRequest, year: nat, f: BatchFaults, g: InvoiceFaults)
    requires Books(db)
    ensures Faithful(db, AfterCorporate(db, org, q, year, f, g))
  {
    if BatchError(db, org, q, f).None? {
      BatchExtends(db, org, q);
      OrdersAlone(db, WithBatch(db, org, q));
      CompanyIsFaithful(WithBatch(db, org, q), org, ClientId(db, q.company), BatchIds(db, org, q), year, g);
      FaithfulTwice(db, WithBatch(db, org, q), AfterCorporate(db, org, q, year, f, g));
    } else {
      OrdersAlone(db, db);
    }
  }

  lemma CompanyIsFaithful(db: Db, org: Id, company: Id, ids: seq<Id>, year: nat, f: InvoiceFaults)
    ensures Faithful(db, AfterGenerateCompany(db, org, company, ids, year, f))
  {}

  lemma JobIsFaithful(db: Db, orgs: set<Id>, today: int, faults: JobFaults)
    ensures Faithful(db, AfterOverdue(db, orgs, today, faults))
  {
    JobLeavesChargesAlone(db, orgs, today, faults);
    OrdersAlone(db, AfterOverdue(db, orgs, today, faults));
  }

  lemma NewStaysAreFaithful(db: Db, org: Id, profile: Option<Id>, q: StayRequest, f: StayFaults, g: GuestFaults)
    ensures Faithful(db, AfterIndividual(db, org, q, f))
    ensures Faithful(db, AfterGuest(db, profile, q, g))
  {
    OrdersAlone(db, AfterIndividual(db, org, q, f));
    OrdersAlone(db, AfterGuest(db, profile, q, g));
  }

  // ---------- items arrive ----------

  predicate OwnInvoiced(db: Db, booking: Option<Id>) {
    booking.Some? && exists k | 0 <= k < |db.invoices| :: db.invoices[k].booking == booking
  }

  /** `its` join orders of `booking`; the lines of `billed` reach its own invoice, and no other own
      invoice changes. */
  ghost predicate Arrives(db: Db, after: Db, booking: Option<Id>, its: seq<Item>, billed: seq<Item>) {
    && db.orders <= after.orders && after.items == db.items + its && |after.invoices| == |db.invoices|
    && (forall it | it in its :: it.order < |after.orders| && after.orders[it.order].booking == booking)
    && (forall k | 0 <= k < |db.invoices| :: Extended(db.invoices[k], after.invoices[k], booking, billed))
  }

  ghost predicate Extended(inv: Invoice, now: Invoice, booking: Option<Id>, billed: seq<Item>) {
    && now.booking == inv.booking
    && (inv.booking.Some? ==>
          now == if inv.booking == booking then AppendLines(inv, Each(billed, AsLine(booking.value))) else inv)
  }

  lemma ItemsArrive(db: Db, orders: seq<Order>, its: seq<Item>, booking: Option<Id>, b: Id)
    requires Filed(db) && db.orders <= orders
    requires forall it | it in its :: it.order < |orders| && orders[it.order].booking == booking
    ensures booking == Some(b) ==> Where(db.items + its, OfBooking(orders, b)) == Ordered(db, b) + its
    ensures booking != Some(b) ==> Where(db.items + its, OfBooking(orders, b)) == Ordered(db, b)
  {
    WhereConcat(db.items, its, OfBooking(orders, b));
    WhereAgree(db.items, OfBooking(orders, b), OfBooking(db.orders, b));
    if booking == Some(b) { WhereAll(its, OfBooking(orders, b)); } else { WhereNone(its, OfBooking(orders, b)); }
  }

  lemma ExtendedLinks(inv: Invoice, b: Id, billed: seq<Item>)
    ensures Where(AppendLines(inv, Each(billed, AsLine(b))).lines, IsLinked)
      == Where(inv.lines, IsLinked) + Each(billed, AsLine(b))
  {
    var ls := Each(billed, AsLine(b));
    AppendedLines(inv, ls);
    WhereConcat(inv.lines, ls, IsLinked);
    WhereAll(ls, IsLinked);
  }

  lemma ExtendedOrphans(inv: Invoice, b: Id, billed: seq<Item>)
    ensures Where(AppendLines(inv, Each(billed, AsLine(b))).lines, IsOrphan) == Where(inv.lines, IsOrphan)
  {
    var ls := Each(billed, AsLine(b));
    AppendedLines(inv, ls);
    WhereConcat(inv.lines, ls, IsOrphan);
    WhereNone(ls, IsOrphan);
  }

  lemma MoreExtras(inv: Invoice, now: Invoice, more: seq<Line>)
    requires Where(now.lines, IsLinked) == Where(inv.lines, IsLinked) + more
    requires Where(now.lines, IsOrphan) == Where(inv.lines, IsOrphan)
    ensures Extras(now) == Extras(inv) + SumLines(more)
  {
    SumLinesConcat(Where(inv.lines, IsLinked), more);
  }

  lemma ExtendedExtras(inv: Invoice, b: Id, billed: seq<Item>)
    ensures Extras(AppendLines(inv, Each(billed, AsLine(b)))) == Extras(inv) + SumItems(billed)
  {
    ExtendedLinks(inv, b, billed);
    ExtendedOrphans(inv, b, billed);
    MoreExtras(inv, AppendLines(inv, Each(billed, AsLine(b))), Each(billed, AsLine(b)));
    SumOfLines(billed, b);
  }

  lemma MirrorExtends(a: seq<Item>, its: seq<Item>, billed: seq<Item>, b: Id)
    requires |billed| == |its| ==> billed == its
    ensures Each(a, AsLine(b)) + Each(billed, AsLine(b)) == Each(a + its, AsLine(b)) <==> |billed| == |its|
  {
    EachConcat(a, its, AsLine(b));
    if |billed| != |its| { assert |Each(a, AsLine(b)) + Each(billed, AsLine(b))| != |Each(a + its, AsLine(b))|; }
  }

  /** A bill the items are not for. */
  lemma ArrivalElsewhere(db: Db, after: Db, booking: Option<Id>, its: seq<Item>, billed: seq<Item>, k: nat)
    requires Filed(db) && Arrives(db, after, booking, its, billed) && k < |db.invoices|
    requires db.invoices[k].booking.None? || db.invoices[k].booking != booking
    ensures Steady(db, after, db.invoices[k], after.invoices[k])
  {
    assert Extended(db.invoices[k], after.invoices[k], booking, billed);
    if db.invoices[k].booking.Some? {
      var b := db.invoices[k].booking.value;
      ItemsArrive(db, after.orders, its, booking, b);
      assert Ordered(after, b) == Ordered(db, b) && after.invoices[k] == db.invoices[k];
    }
  }

  /** The bill they are for. */
  lemma ArrivalHere(db: Db, after: Db, booking: Option<Id>, its: seq<Item>, billed: seq<Item>, k: nat)
    requires Filed(db) && Arrives(db, after, booking, its, billed) && k < |db.invoices|
    requires booking.Some? && db.invoices[k].booking == booking
    requires |billed| == |its| ==> billed == its
    ensures Mirrors(db, db.invoices[k]) ==> (Mirrors(after, after.invoices[k]) <==> |billed| == |its|)
    ensures Squares(db, db.invoices[k]) ==> (Squares(after, after.invoices[k]) <==> SumItems(billed) == SumItems(its))
  {
    var inv, b := db.invoices[k], booking.value;
    assert Extended(inv, after.invoices[k], booking, billed);
    ItemsArrive(db, after.orders, its, booking, b);
    ExtendedLinks(inv, b, billed);
    ExtendedExtras(inv, b, billed);
    MirrorExtends(Ordered(db, b), its, billed, b);
    SumItemsConcat(Ordered(db, b), its);
    assert Ordered(after, b) == Ordered(db, b) + its && after.invoices[k].booking == booking;
  }

  lemma ArrivalIsExact(db: Db, after: Db, booking: Option<Id>, its: seq<Item>, billed: seq<Item>)
    requires Filed(db) && Arrives(db, after, booking, its, billed)
    requires |billed| == |its| ==> billed == its
    ensures Mirrored(db) ==> (Mirrored(after) <==> !OwnInvoiced(db, booking) || |billed| == |its|)
    ensures AllSquare(db) ==> (AllSquare(after) <==> !OwnInvoiced(db, booking) || SumItems(billed) == SumItems(its))
  {
    forall k: nat | k < |db.invoices|
      ensures var inv, now := db.invoices[k], after.invoices[k];
        && (Mirrors(db, inv) ==> (Mirrors(after, now) <==>
          inv.booking.None? || inv.booking != booking || |billed| == |its|))
        && (Squares(db, inv) ==>
              (Squares(after, now) <==>
               inv.booking.None? || inv.booking != booking || SumItems(billed) == SumItems(its)))
    {
      if db.invoices[k].booking.Some? && db.invoices[k].booking == booking {
        ArrivalHere(db, after, booking, its, billed, k);
      } else {
        ArrivalElsewhere(db, after, booking, its, billed, k);
      }
    }
  }

  lemma {:induction false} BilledIsAllIff(its: seq<Item>, lost: set<nat>, n: nat)
    requires n <= |its|
    ensures |Billed(its, lost, n)| <= n
    ensures |Billed(its, lost, n)| == n <==> forall i: nat | i < n :: i !in lost
    ensures |Billed(its, lost, n)| == n ==> Billed(its, lost, n) == its[..n]
  {
    if n > 0 {
      BilledIsAllIff(its, lost, n - 1);
      assert its[..n] == its[..n - 1] + [its[n - 1]];
    }
  }

  lemma {:induction false} BilledCostsAllIff(its: seq<Item>, lost: set<nat>, n: nat)
    requires n <= |its|
    ensures SumItems(Billed(its, lost, n)) <= SumItems(its[..n])
    ensures SumItems(Billed(its, lost, n)) == SumItems(its[..n]) <==>
      forall i: nat | i < n :: i !in lost || its[i].subtotal == 0
  {
    if n > 0 {
      BilledCostsAllIff(its, lost, n - 1);
      var it := its[n - 1];
      assert its[..n] == its[..n - 1] + [it] && [it][..0] == [];
      SumItemsConcat(its[..n - 1], [it]);
      SumItemsConcat(Billed(its, lost, n - 1), if n - 1 in lost then [] else [it]);
    }
  }

  lemma {:induction false} CostsNothingIff(its: seq<Item>, n: nat)
    requires n <= |its|
    ensures SumItems(its[..n]) == 0 <==> forall i: nat | i < n :: its[i].subtotal == 0
  {
    if n > 0 {
      CostsNothingIff(its, n - 1);
      assert its[..n] == its[..n - 1] + [its[n - 1]] && [its[n - 1]][..0] == [];
      SumItemsConcat(its[..n - 1], [its[n - 1]]);
    }
  }

  lemma ReachedIsAllIff(its: seq<Item>, f: OrderFaults)
    requires its != []
    ensures |Reached(its, f)| == |its| <==> forall i: nat | i < |its| :: !Loses(f, i)
    ensures |Reached(its, f)| == |its| ==> Reached(its, f) == its
    ensures SumItems(Reached(its, f)) == SumItems(its) <==>
      forall i: nat | i < |its| :: !Loses(f, i) || its[i].subtotal == 0
  {
    assert its[..|its|] == its;
    BilledIsAllIff(its, f.lost, |its|);
    BilledCostsAllIff(its, f.lost, |its|);
    CostsNothingIff(its, |its|);
    if f.reread || f.unread {
      assert Loses(f, 0);
    } else {
      assert forall i: nat :: Loses(f, i) <==> i in f.lost;
    }
  }

  predicate BilledAt(db: Db, org: Id, booking: Option<Id>, f: OrderFaults, k: nat) {
    booking.Some? && !f.unread && BillTo(db, org, booking.value) == Some(k)
  }

  lemma BillingRewrites(db: Db, org: Id, booking: Option<Id>, its: seq<Item>, f: OrderFaults, k: nat)
    requires k < |db.invoices|
    ensures var after := AfterBilling(db, org, booking, its, f);
      |after.invoices| == |db.invoices| && after.invoices[k] ==
        if BilledAt(db, org, booking, f, k)
        then AppendLines(db.invoices[k], Each(Billed(its, f.lost, |its|), AsLine(booking.value)))
        else db.invoices[k]
  {}

  lemma NothingReached(inv: Invoice, b: Id, its: seq<Item>, f: OrderFaults)
    requires f.reread || f.unread
    ensures AppendLines(inv, Each(Reached(its, f), AsLine(b))) == inv
  {
    assert Each(Reached(its, f), AsLine(b)) == [];
  }

  lemma BillingExtends(db: Db, org: Id, booking: Option<Id>, its: seq<Item>, f: OrderFaults, k: nat)
    requires Books(db) && (booking.Some? ==> InOrg(db.bookings, org, booking.value)) && k < |db.invoices|
    ensures |AfterBilling(db, org, booking, its, f).invoices| == |db.invoices|
    ensures var now := if f.reread then db.invoices[k] else AfterBilling(db, org, booking, its, f).invoices[k];
      Extended(db.invoices[k], now, booking, Reached(its, f))
  {
    var inv := db.invoices[k];
    BillingRewrites(db, org, booking, its, f, k);
    if booking.Some? {
      if inv.booking.Some? { BillTarget(db, org, booking.value, k); }
      if f.reread || f.unread {
        NothingReached(inv, booking.value, its, f);
      } else {
        AppendedLines(inv, Each(Reached(its, f), AsLine(booking.value)));
      }
    }
  }

  lemma BillingArrives(db: Db, stored: Db, org: Id, booking: Option<Id>, its: seq<Item>, f: OrderFaults)
    requires Books(stored) && stored.invoices == db.invoices
    requires booking.Some? ==> InOrg(stored.bookings, org, booking.value)
    requires db.orders <= stored.orders && stored.items == db.items + its
    requires forall it | it in its :: it.order < |stored.orders| && stored.orders[it.order].booking == booking
    ensures Arrives(db, if f.reread then stored else AfterBilling(stored, org, booking, its, f),
      booking, its, Reached(its, f))
  {
    var after := if f.reread then stored else AfterBilling(stored, org, booking, its, f);
    assert after.orders == stored.orders && after.items == stored.items;
    forall k: nat | k < |db.invoices|
      ensures |after.invoices| == |db.invoices| && Extended(db.invoices[k], after.invoices[k], booking, Reached(its, f))
    {
      BillingExtends(stored, org, booking, its, f, k);
    }
  }

  lemma PlaceArrives(db: Db, org: Id, b: Id, qs: seq<ItemRequest>, today: int, f: OrderFaults)
    requires Books(db) && PlaceOrderError(db, org, b, qs, f).None?
    ensures var its := NewItems(db.menu, org, |db.orders|, db.next, qs, |qs|);
      Arrives(db, AfterPlace(db, org, b, qs, today, f), Some(b), its, Reached(its, f))
  {
    var its := NewItems(db.menu, org, |db.orders|, db.next, qs, |qs|);
    OrderStored(db, org, Some(b), qs, today);
    FiledItems(db, org, |db.orders|, qs);
    BillingArrives(db, WithOrder(db, org, Some(b), qs, today), org, Some(b), its, f);
  }

  lemma AddArrives(db: Db, org: Id, order: nat, qs: seq<ItemRequest>, f: OrderFaults)
    requires Books(db) && AddError(db, org, order, qs, f).None?
    ensures var its := NewItems(db.menu, org, order, db.next, qs, |qs|);
      Arrives(db, AfterAdd(db, org, order, qs, f), db.orders[order].booking, its, Reached(its, f))
  {
    var its := NewItems(db.menu, org, order, db.next, qs, |qs|);
    ItemsStored(db, org, order, qs);
    FiledItems(db, org, order, qs);
    assert db.orders[order] in db.orders;
    BillingArrives(db, WithItems(db, org, order, qs), org, db.orders[order].booking, its, f);
  }

  lemma WalkInIsFaithful(db: Db, org: Id, qs: seq<ItemRequest>, today: int, f: OrderFaults)
    requires Books(db)
    ensures Faithful(db, AfterWalkIn(db, org, qs, today, f))
  {
    var after := AfterWalkIn(db, org, qs, today, f);
    if WalkInError(db, org, qs, f).None? {
      FiledItems(db, org, |db.orders|, qs);
      forall k | 0 <= k < |db.invoices| && db.invoices[k].booking.Some?
        ensures Ordered(after, db.invoices[k].booking.value) == Ordered(db, db.invoices[k].booking.value)
      {
        ItemsArrive(db, after.orders, NewItems(db.menu, org, |db.orders|, db.next, qs, |qs|), None,
          db.invoices[k].booking.value);
      }
    }
    SameItemsSameLines(db, after);
  }

  // ---------- items leave ----------

  function Is(item: Id): Item -> bool { (it: Item) => it.id == item }

  lemma {:induction false} SumWithout(its: seq<Item>, item: Id)
    ensures SumItems(its) == SumItems(Where(its, OtherThan(item))) + SumItems(Where(its, Is(item)))
  {
    if its != [] {
      var init, it := its[..|its| - 1], its[|its| - 1];
      SumWithout(init, item);
      SumItemsConcat(Where(init, OtherThan(item)), [it]);
      SumItemsConcat(Where(init, Is(item)), [it]);
      assert [it][..0] == [];
    }
  }

  function LinkedToOther(item: Id): Line -> bool { (l: Line) => l.orderItem.Some? && l.orderItem != Some(item) }

  lemma UnlinkedLinks(ls: seq<Line>, item: Id)
    ensures Where(Each(ls, Unlinked(item)), IsLinked) == Where(Where(ls, IsLinked), NotFor(item))
  {
    var f, others := Unlinked(item), Where(ls, LinkedToOther(item));
    forall l | l in ls ensures IsLinked(f(l)) == LinkedToOther(item)(l) {}
    WhereEach(ls, f, LinkedToOther(item), IsLinked);
    forall k | 0 <= k < |others| ensures f(others[k]) == others[k] { assert others[k] in others; }
    assert Each(others, f) == others;
    WhereAnd(ls, IsLinked, NotFor(item), LinkedToOther(item));
  }

  lemma UnlinkedMirror(db: Db, inv: Invoice, item: Id)
    requires inv.booking.Some? && Mirrors(db, inv)
    ensures Mirrors(WithoutItem(db, item), Unlink(inv, item))
  {
    var b := inv.booking.value;
    calc {
      Where(Unlink(inv, item).lines, IsLinked);
      { UnlinkedLinks(inv.lines, item); }
      Where(Each(Ordered(db, b), AsLine(b)), NotFor(item));
      { WhereEach(Ordered(db, b), AsLine(b), OtherThan(item), NotFor(item)); }
      Each(Where(Ordered(db, b), OtherThan(item)), AsLine(b));
      { WhereCommutes(db.items, OfBooking(db.orders, b), OtherThan(item)); }
      Each(Ordered(WithoutItem(db, item), b), AsLine(b));
    }
  }

  lemma UnlinkedExtras(inv: Invoice, item: Id)
    requires forall l | l in inv.lines && l.orderItem.Some? :: l.order.Some?
    ensures Extras(Unlink(inv, item)) == Extras(inv)
  {
    SumSplits(inv.lines);
    SumSplits(Unlink(inv, item).lines);
    SumKept(inv.lines, Unlinked(item));
    UnlinkedRoom(inv.lines, item);
  }

  /** What one own invoice still asks for a removed item. */
  function Taken(db: Db, b: Id, item: Id): nat { SumItems(Where(Ordered(db, b), Is(item))) }

  lemma UnlinkedSquare(db: Db, inv: Invoice, item: Id)
    requires InvoiceOk(db, inv) && inv.booking.Some? && Squares(db, inv)
    ensures Squares(WithoutItem(db, item), Unlink(inv, item)) <==> Taken(db, inv.booking.value, item) == 0
  {
    var b := inv.booking.value;
    UnlinkedExtras(inv, item);
    SumWithout(Ordered(db, b), item);
    WhereCommutes(db.items, OfBooking(db.orders, b), OtherThan(item));
  }

  /** The removed item had a price and is on a booking's own invoice. */
  predicate TakesPriced(db: Db, item: Id) {
    exists it | it in db.items ::
      it.id == item && it.subtotal > 0 && it.order < |db.orders| && OwnInvoiced(db, db.orders[it.order].booking)
  }

  lemma TakenNothingIff(db: Db, b: Id, item: Id)
    ensures Taken(db, b, item) == 0 <==>
      forall it | it in db.items && it.id == item && OfBooking(db.orders, b)(it) :: it.subtotal == 0
  {
    var gone := Where(Ordered(db, b), Is(item));
    assert gone[..|gone|] == gone;
    CostsNothingIff(gone, |gone|);
    if forall i: nat | i < |gone| :: gone[i].subtotal == 0 {
      forall it | it in db.items && it.id == item && OfBooking(db.orders, b)(it) ensures it.subtotal == 0 {
        assert it in Ordered(db, b) && it in gone;
      }
    }
  }

  lemma RemovalAt(db: Db, item: Id, k: nat)
    requires Books(db) && k < |db.invoices|
    ensures Mirrors(db, db.invoices[k]) ==> Mirrors(WithoutItem(db, item), Unlink(db.invoices[k], item))
    ensures Squares(db, db.invoices[k]) ==> (Squares(WithoutItem(db, item), Unlink(db.invoices[k], item)) <==>
      (db.invoices[k].booking.Some? ==> Taken(db, db.invoices[k].booking.value, item) == 0))
  {
    var inv := db.invoices[k];
    assert InvoiceOk(db, inv);
    if inv.booking.Some? {
      if Mirrors(db, inv) { UnlinkedMirror(db, inv, item); }
      if Squares(db, inv) { UnlinkedSquare(db, inv, item); }
    }
  }

  lemma TakesPricedIff(db: Db, item: Id)
    ensures !TakesPriced(db, item) <==>
      forall k | 0 <= k < |db.invoices| && db.invoices[k].booking.Some? ::
        Taken(db, db.invoices[k].booking.value, item) == 0
  {
    forall k | 0 <= k < |db.invoices| && db.invoices[k].booking.Some?
      ensures Taken(db, db.invoices[k].booking.value, item) == 0 <==>
        forall it | it in db.items && it.id == item && OfBooking(db.orders, db.invoices[k].booking.value)(it) ::
          it.subtotal == 0
    { TakenNothingIff(db, db.invoices[k].booking.value, item); }
    if TakesPriced(db, item) {
      var it :| it in db.items && it.id == item && it.subtotal > 0 && it.order < |db.orders|
        && OwnInvoiced(db, db.orders[it.order].booking);
      var k :| 0 <= k < |db.invoices| && db.invoices[k].booking == db.orders[it.order].booking;
      assert OfBooking(db.orders, db.invoices[k].booking.value)(it);
    }
  }

  /** A removal keeps every mirror, and keeps right bills right exactly if what it removes was free or
      is on no booking's own invoice. */
  lemma RemovalIsExact(db: Db, org: Id, order: nat, item: Id)
    requires Books(db) && RemoveError(db, org, order, item).None?
    ensures Mirrored(db) ==> Mirrored(AfterRemove(db, org, order, item))
    ensures AllSquare(db) ==> (AllSquare(AfterRemove(db, org, order, item)) <==> !TakesPriced(db, item))
  {
    forall k | 0 <= k < |db.invoices| ensures Balanced(db.invoices[k]) { assert InvoiceOk(db, db.invoices[k]); }
    RemovalOnlyOrphans(db, org, order, item);
    TakesPricedIff(db, item);
    forall k: nat | k < |db.invoices|
      ensures Mirrors(db, db.invoices[k]) ==> Mirrors(WithoutItem(db, item), Unlink(db.invoices[k], item))
      ensures Squares(db, db.invoices[k]) ==> (Squares(WithoutItem(db, item), Unlink(db.invoices[k], item)) <==>
        (db.invoices[k].booking.Some? ==> Taken(db, db.invoices[k].booking.value, item) == 0))
    { RemovalAt(db, item, k); }
  }

  // ---------- over runs ----------

  predicate AnyLost(db: Db, booking: Option<Id>, qs: seq<ItemRequest>, f: OrderFaults) {
    OwnInvoiced(db, booking) && exists i: nat | i < |qs| :: Loses(f, i)
  }

  predicate AnyPricedLost(db: Db, booking: Option<Id>, qs: seq<ItemRequest>, f: OrderFaults) {
    OwnInvoiced(db, booking) && exists i: nat | i < |qs| :: Loses(f, i) && PriceOf(db.menu, qs[i]) > 0
  }

  /** A line of an own invoice gets lost. */
  predicate LineLost(db: Db, op: Op) {
    match op
    case PlaceOrder(org, b, qs, _, f) => PlaceOrderError(db, org, b, qs, f).None? && AnyLost(db, Some(b), qs, f)
    case AddItems(org, order, qs, f) =>
      AddError(db, org, order, qs, f).None? && AnyLost(db, db.orders[order].booking, qs, f)
    case _ => false
  }

  /** The same of a line that costs something; or something that costs is taken off an order. */
  predicate MoneyLost(db: Db, op: Op) {
    match op
    case PlaceOrder(org, b, qs, _, f) => PlaceOrderError(db, org, b, qs, f).None? && AnyPricedLost(db, Some(b), qs, f)
    case AddItems(org, order, qs, f) =>
      AddError(db, org, order, qs, f).None? && AnyPricedLost(db, db.orders[order].booking, qs, f)
    case RemoveItem(org, order, item) => RemoveError(db, org, order, item).None? && TakesPriced(db, item)
    case _ => false
  }

  lemma ReachedPricedIff(menu: map<Id, MenuItem>, its: seq<Item>, qs: seq<ItemRequest>, f: OrderFaults)
    requires |its| == |qs| && qs != [] && forall i: nat | i < |qs| :: its[i].subtotal == PriceOf(menu, qs[i])
    ensures |Reached(its, f)| == |its| <==> !exists i: nat | i < |qs| :: Loses(f, i)
    ensures |Reached(its, f)| == |its| ==> Reached(its, f) == its
    ensures SumItems(Reached(its, f)) == SumItems(its) <==>
      !exists i: nat | i < |qs| :: Loses(f, i) && PriceOf(menu, qs[i]) > 0
  {
    ReachedIsAllIff(its, f);
  }

  lemma NewItemsPriced(menu: map<Id, MenuItem>, org: Id, order: nat, first: Id, qs: seq<ItemRequest>)
    requires ItemsError(menu, org, qs, |qs|).None?
    ensures var its := NewItems(menu, org, order, first, qs, |qs|);
      |its| == |qs| && forall i: nat | i < |qs| :: its[i].subtotal == PriceOf(menu, qs[i])
  {}

  lemma BillingIsExact(db: Db, after: Db, booking: Option<Id>, its: seq<Item>, qs: seq<ItemRequest>, f: OrderFaults)
    requires Filed(db) && |its| == |qs| && qs != [] && forall i: nat | i < |qs| ::
      its[i].subtotal == PriceOf(db.menu, qs[i])
    requires Arrives(db, after, booking, its, Reached(its, f))
    ensures Mirrored(db) ==> (Mirrored(after) <==> !AnyLost(db, booking, qs, f))
    ensures AllSquare(db) ==> (AllSquare(after) <==> !AnyPricedLost(db, booking, qs, f))
  {
    ReachedPricedIff(db.menu, its, qs, f);
    ArrivalIsExact(db, after, booking, its, Reached(its, f));
  }

  lemma PlaceIsExact(db: Db, org: Id, b: Id, qs: seq<ItemRequest>, today: int, f: OrderFaults)
    requires Books(db) && PlaceOrderError(db, org, b, qs, f).None?
    ensures Mirrored(db) ==> (Mirrored(AfterPlace(db, org, b, qs, today, f)) <==> !AnyLost(db, Some(b), qs, f))
    ensures AllSquare(db) ==> (AllSquare(AfterPlace(db, org, b, qs, today, f)) <==> !AnyPricedLost(db, Some(b), qs, f))
  {
    PlaceArrives(db, org, b, qs, today, f);
    NewItemsPriced(db.menu, org, |db.orders|, db.next, qs);
    BillingIsExact(db, AfterPlace(db, org, b, qs, today, f), Some(b),
      NewItems(db.menu, org, |db.orders|, db.next, qs, |qs|), qs, f);
  }

  lemma AddIsExact(db: Db, org: Id, order: nat, qs: seq<ItemRequest>, f: OrderFaults)
    requires Books(db) && AddError(db, org, order, qs, f).None?
    ensures Mirrored(db) ==> (Mirrored(AfterAdd(db, org, order, qs, f)) <==>
      !AnyLost(db, db.orders[order].booking, qs, f))
    ensures AllSquare(db) ==>
      (AllSquare(AfterAdd(db, org, order, qs, f)) <==> !AnyPricedLost(db, db.orders[order].booking, qs, f))
  {
    AddArrives(db, org, order, qs, f);
    NewItemsPriced(db.menu, org, order, db.next, qs);
    BillingIsExact(db, AfterAdd(db, org, order, qs, f), db.orders[order].booking,
      NewItems(db.menu, org, order, db.next, qs, |qs|), qs, f);
  }

  predicate BillsNothing(op: Op) { !op.PlaceOrder? && !op.AddItems? && !op.RemoveItem? }

  lemma StepIsFaithful(db: Db, op: Op)
    requires Books(db) && BillsNothing(op)
    ensures Faithful(db, Step(db, op))
  {
    match op
    case CreateIndividual(org, q, f) => NewStaysAreFaithful(db, org, None, q, f, GuestFaults(false, false));
    case GuestCreate(profile, q, f) => NewStaysAreFaithful(db, 0, profile, q, StayFaults(false, false), f);
    case CreateCorporate(org, batch, year, f, g) => CorporateIsFaithful(db, org, batch, year, f, g);
    case UpdateBooking(org, id, edit, today, f) => UpdateIsFaithful(db, org, id, edit, today, f);
    case UpdateStatus(org, id, to, year, f) => StatusIsFaithful(db, org, id, to, year, f);
    case GuestCancel(client, id) => OrdersAlone(db, AfterCancel(db, client, id));
    case DeleteBooking(org, id) => DeleteIsFaithful(db, org, id);
    case WorkflowOutcome(org, id, approved) =>
      OrdersAlone(db, db.(bookings := OutcomeApplied(db.bookings, org, id, approved)));
    case OverdueJob(orgs, today, faults) => JobIsFaithful(db, orgs, today, faults);
    case PlaceWalkIn(org, wanted, today, f) => WalkInIsFaithful(db, org, wanted, today, f);
    case CloseAllOrders(org, today) => CloseIsFaithful(db, org, today);
  }

  ghost predicate AccurateIff(db: Db, op: Op) {
    && (Mirrored(db) ==> (Mirrored(Step(db, op)) <==> !LineLost(db, op)))
    && (AllSquare(db) ==> (AllSquare(Step(db, op)) <==> !MoneyLost(db, op)))
  }

  lemma PlaceStepIff(db: Db, op: Op)
    requires Books(db) && op.PlaceOrder?
    ensures AccurateIff(db, op)
  {
    if PlaceOrderError(db, op.org, op.booking, op.wanted, op.of).None? {
      PlaceIsExact(db, op.org, op.booking, op.wanted, op.today, op.of);
    }
  }

  lemma AddStepIff(db: Db, op: Op)
    requires Books(db) && op.AddItems?
    ensures AccurateIff(db, op)
  {
    if AddError(db, op.org, op.order, op.wanted, op.of).None? { AddIsExact(db, op.org, op.order, op.wanted, op.of); }
  }

  lemma RemoveStepIff(db: Db, op: Op)
    requires Books(db) && op.RemoveItem?
    ensures AccurateIff(db, op)
  {
    if RemoveError(db, op.org, op.order, op.item).None? { RemovalIsExact(db, op.org, op.order, op.item); }
  }

  lemma OtherStepIff(db: Db, op: Op)
    requires Books(db) && BillsNothing(op)
    ensures AccurateIff(db, op)
  {
    StepIsFaithful(db, op);
    FaithfulKeeps(db, Step(db, op));
  }

  lemma StepIsAccurateIff(db: Db, op: Op)
    requires Books(db)
    ensures Mirrored(db) ==> (Mirrored(Step(db, op)) <==> !LineLost(db, op))
    ensures AllSquare(db) ==> (AllSquare(Step(db, op)) <==> !MoneyLost(db, op))
  {
    assert AccurateIff(db, op) by {
      if op.PlaceOrder? { PlaceStepIff(db, op); }
      else if op.AddItems? { AddStepIff(db, op); }
      else if op.RemoveItem? { RemoveStepIff(db, op); }
      else { OtherStepIff(db, op); }
    }
  }

  /** Over every run, with anything failing: the own invoices mirror the orders behind them, line for
      line, at every moment if and only if no line of an own invoice ever got lost. */
  lemma MirrorsOverRuns(db: Db, ops: seq<Op>)
    requires Books(db) && Mirrored(db)
    ensures GoodThroughout(Step, db, ops, (s: Db) => Mirrored(s), |ops|)
      <==> SafeThroughout(Step, db, ops, (s, o) => !LineLost(s, o), |ops|)
  {
    forall s, o | Books(s) ensures Books(Step(s, o)) && (Mirrored(s) ==> (Mirrored(Step(s, o)) <==> !LineLost(s, o))) {
      StepKeepsBooks(s, o);
      StepIsAccurateIff(s, o);
    }
    GoodIffSafe(Step, db, ops, s => Books(s), (s: Db) => Mirrored(s), (s, o) => !LineLost(s, o), |ops|);
  }

  lemma StepIsRightIff(db: Db, op: Op)
    requires Books(db)
    ensures AllRight(db) ==> (AllRight(Step(db, op)) <==> !MoneyLost(db, op))
  {
    StepKeepsBooks(db, op);
    StepIsAccurateIff(db, op);
    AllRightIsAllSquare(db);
    AllRightIsAllSquare(Step(db, op));
  }

  /** Over every run, with anything failing: every own invoice asks for exactly the room and the orders
      as they stand, at every moment, if and only if nothing that costs was taken off an order and no
      line that costs got lost. */
  lemma BillsAreRightOverRuns(db: Db, ops: seq<Op>)
    requires Books(db) && AllRight(db)
    ensures GoodThroughout(Step, db, ops, (s: Db) => AllRight(s), |ops|)
      <==> SafeThroughout(Step, db, ops, (s, o) => !MoneyLost(s, o), |ops|)
  {
    forall s, o | Books(s) ensures Books(Step(s, o)) && (AllRight(s) ==> (AllRight(Step(s, o)) <==> !MoneyLost(s, o))) {
      StepKeepsBooks(s, o);
      StepIsRightIff(s, o);
    }
    GoodIffSafe(Step, db, ops, s => Books(s), (s: Db) => AllRight(s), (s, o) => !MoneyLost(s, o), |ops|);
  }

  /** And removals alone only ever make a bill too high: while no line gets lost, every own invoice
      reads room, plus orders as they stand, plus what was taken off an order and is still charged. */
  lemma EveryBillAddsUp(db: Db, ops: seq<Op>, k: nat)
    requires Books(db) && Mirrored(db) && SafeThroughout(Step, db, ops, (s, o) => !LineLost(s, o), |ops|)
    requires k < |At(Step, db, ops, |ops|).invoices| && At(Step, db, ops, |ops|).invoices[k].booking.Some?
    ensures var now := At(Step, db, ops, |ops|);
      var inv := now.invoices[k];
      && inv.subtotal
           == RoomCharge(inv) + OrdersTotal(now.orders, now.items, inv.booking.value, |now.orders|) + StillCharged(inv)
      && inv.tax == TaxOf(inv.subtotal, inv.rate) && inv.total == inv.subtotal + inv.tax
  {
    RunKeepsBooks(db, ops, |ops|);
    MirrorsOverRuns(db, ops);
    GoodAtEachMoment(Step, db, ops, (s: Db) => Mirrored(s), |ops|, |ops|);
    var now := At(Step, db, ops, |ops|);
    assert InvoiceOk(now, now.invoices[k]) && Mirrors(now, now.invoices[k]);
    MirrorAddsUp(now, now.invoices[k]);
  }

  lemma MirrorAddsUp(db: Db, inv: Invoice)
    requires Balanced(inv) && Mirrors(db, inv) && inv.booking.Some?
    ensures inv.subtotal
      == RoomCharge(inv) + OrdersTotal(db.orders, db.items, inv.booking.value, |db.orders|) + StillCharged(inv)
  {
    var b := inv.booking.value;
    SumSplits(inv.lines);
    SumOfLines(Ordered(db, b), b);
    OrdersTotalIsItemsTotal(db.orders, db.items, b);
  }

  /** While an invoice mirrors its orders, it is right exactly if every line that lost its item is free. */
  lemma RightIffOrphansAreFree(db: Db, inv: Invoice)
    requires Balanced(inv) && Mirrors(db, inv) && inv.booking.Some?
    ensures Right(db, inv) <==> forall l | l in inv.lines && IsOrphan(l) :: l.total == 0
  {
    MirrorAddsUp(db, inv);
    SumIsZeroIffAllAre(Where(inv.lines, IsOrphan));
  }

  lemma {:induction false} SumIsZeroIffAllAre(ls: seq<Line>)
    ensures SumLines(ls) == 0 <==> forall l | l in ls :: l.total == 0
  {
    if ls != [] {
      var init, l := ls[..|ls| - 1], ls[|ls| - 1];
      SumIsZeroIffAllAre(init);
      assert ls == init + [l];
    }
  }

  // ---------- the smallest case of a lost line ----------

  lemma OneStayMirrors()
    ensures Mirrored(OneStay()) && AllRight(OneStay())
  {
    OnlyRoom(OneStay().invoices[0].lines[0]);
    OneRoomLine(OneStay().invoices[0].lines[0]);
    assert Ordered(OneStay(), 2) == [];
  }

  /** The one line of a dinner cannot be appended: the dinner is on the order and not on the bill. */
  lemma LostDinner()
    ensures var dinner, f := [ItemRequest(9, 1)], OrderFaults(false, false, false, {0});
      var after := AfterAdd(OneStay(), 1, 0, dinner, f);
      && Books(OneStay()) && Mirrored(OneStay()) && AllRight(OneStay())
      && AddError(OneStay(), 1, 0, dinner, f).None? && !Mirrored(after) && !AllRight(after)
  {
    var dinner, f := [ItemRequest(9, 1)], OrderFaults(false, false, false, {0});
    var after := AfterAdd(OneStay(), 1, 0, dinner, f);
    OneStayIsInOrder();
    OneStayMirrors();
    assert ItemsError(OneStay().menu, 1, dinner, 0).None?;
    assert OneStay().invoices[0].booking == Some(2) && Loses(f, 0) && PriceOf(OneStay().menu, dinner[0]) > 0;
    AddIsExact(OneStay(), 1, 0, dinner, f);
    AddKeepsBooks(OneStay(), 1, 0, dinner, f);
    AllRightIsAllSquare(OneStay());
    AllRightIsAllSquare(after);
  }
}
