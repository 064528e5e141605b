/** Two rules the code keeps in one place and not in another, over runs: a room's capacity, which an
    edit does not look at, and a closed order, to which items can still be added. */
module HouseRules {
  import opened Prelude
  import opened Schema
  import opened Reservations
  import opened Billing
  import opened LodgeSteps
  import opened BookingRuns
  import opened BillingTheorems
  import opened Runs

  // ---------- no more guests than the room takes ----------

  predicate FitsRoom(db: Db, b: Booking) { b.room in db.rooms ==> b.guests <= db.rooms[b.room].capacity }

  ghost predicate WithinCapacity(db: Db) { forall i | i in db.bookings :: FitsRoom(db, db.bookings[i]) }

  /** An accepted edit to more guests than the room takes. */
  predicate Overfills(db: Db, op: Op) {
    && op.UpdateBooking?
    && Unwritten(UpdateError(db.bookings, op.org, op.booking, op.edit), op.ef.write).None?
    && !FitsRoom(db, Edited(db.bookings[op.booking], op.edit))
  }

  /** The rows left have the room and guests they had. */
  ghost predicate SameParties(before: Bookings, after: Bookings) {
    forall i | i in after :: i in before && after[i].room == before[i].room && after[i].guests == before[i].guests
  }

  lemma StatusKeepsParties(db: Db, org: Id, id: Id, to: Status, year: nat, f: StatusFaults)
    ensures SameParties(db.bookings, AfterStatus(db, org, id, to, year, f).bookings)
  {
    var after := AfterStatus(db, org, id, to, year, f).bookings;
    assert after == db.bookings || (id in db.bookings && after == Restated(db.bookings, id, to));
  }

  lemma RestKeepsParties(db: Db, op: Op)
    requires op.GuestCancel? || op.DeleteBooking? || op.OverdueJob? || op.WorkflowOutcome?
    ensures SameParties(db.bookings, Step(db, op).bookings) && Step(db, op).rooms == db.rooms
  {}

  lemma NewRowFits(db: Db, after: Db, id: Id, b: Booking)
    requires WithinCapacity(db) && after.rooms == db.rooms && FitsRoom(db, b)
    requires after.bookings == db.bookings || after.bookings == db.bookings[id := b]
    ensures WithinCapacity(after)
  {}

  lemma IndividualFits(db: Db, org: Id, q: StayRequest, f: StayFaults)
    requires WithinCapacity(db)
    ensures WithinCapacity(AfterIndividual(db, org, q, f))
  {
    if IndividualError(db, org, q, f).None? {
      NewRowFits(db, AfterIndividual(db, org, q, f), WithClient(db, org, q.client).next,
        Stay(org, ClientId(db, q.client), None, q));
    }
  }

  lemma GuestFits(db: Db, profile: Option<Id>, q: StayRequest, f: GuestFaults)
    requires WithinCapacity(db)
    ensures WithinCapacity(AfterGuest(db, profile, q, f))
  {
    if GuestError(db, profile, q, f).None? {
      NewRowFits(db, AfterGuest(db, profile, q, f), db.next, Stay(db.rooms[q.room].org, profile.value, None, q));
    }
  }

  lemma {:induction false} GuestsFit(db: Db, org: Id, company: Id, gs: seq<GuestRequest>, n: nat)
    requires n <= |gs| && WithinCapacity(db)
    requires forall k | 0 <= k < n :: PlaceError(db, org, gs[k]).None?
    ensures WithinCapacity(WithGuests(db, org, company, gs, n)) && WithGuests(db, org, company, gs, n).rooms == db.rooms
  {
    if n > 0 { GuestsFit(db, org, company, gs, n - 1); }
  }

  lemma BatchFits(db: Db, org: Id, q: BatchRequest, year: nat, f: BatchFaults, g: InvoiceFaults)
    requires WithinCapacity(db)
    ensures WithinCapacity(AfterCorporate(db, org, q, year, f, g))
  {
    BatchBookings(db, org, q, year, f, g);
    if BatchError(db, org, q, f).None? {
      var start := WithCompany(db, org, q.company);
      NoFirstError(q.guests, |q.guests|, (i: nat, g) => PlaceError(db, org, g));
      forall k | 0 <= k < |q.guests| ensures PlaceError(start, org, q.guests[k]).None? {
        assert PlaceError(db, org, q.guests[k]).None?;
      }
      GuestsFit(start, org, ClientId(db, q.company), q.guests, |q.guests|);
    }
  }

  lemma EditFitsIff(db: Db, op: Op)
    requires WithinCapacity(db) && op.UpdateBooking?
    ensures WithinCapacity(Step(db, op)) <==> !Overfills(db, op)
  {
    var after := Step(db, op);
    if Unwritten(UpdateError(db.bookings, op.org, op.booking, op.edit), op.ef.write).None? {
      assert after.bookings == db.bookings[op.booking := Edited(db.bookings[op.booking], op.edit)];
      assert after.rooms == db.rooms && after.bookings[op.booking] == Edited(db.bookings[op.booking], op.edit);
    }
  }

  lemma OthersFit(db: Db, op: Op)
    requires WithinCapacity(db) && !op.UpdateBooking?
    ensures WithinCapacity(Step(db, op))
  {
    if OrderOp(op) {
      OrdersLeaveBookingsAlone(db, op);
    } else {
      match op {
        case CreateIndividual(org, q, f) => IndividualFits(db, org, q, f);
        case GuestCreate(profile, q, f) => GuestFits(db, profile, q, f);
        case CreateCorporate(org, q, year, f, g) => BatchFits(db, org, q, year, f, g);
        case UpdateStatus(org, id, to, year, f) => StatusKeepsParties(db, org, id, to, year, f);
        case _ => RestKeepsParties(db, op);
      }
    }
  }

  lemma StepFitsIff(db: Db, op: Op)
    requires WithinCapacity(db)
    ensures WithinCapacity(Step(db, op)) <==> !Overfills(db, op)
  {
    if op.UpdateBooking? { EditFitsIff(db, op); } else { OthersFit(db, op); }
  }

  /** Over every run: no stay has more guests than its room takes, at any moment, if and only if no
      accepted edit asks for more. */
  lemma CapacityOverRuns(db: Db, ops: seq<Op>)
    requires WithinCapacity(db)
    ensures GoodThroughout(Step, db, ops, (s: Db) => WithinCapacity(s), |ops|)
      <==> SafeThroughout(Step, db, ops, (s, o) => !Overfills(s, o), |ops|)
  {
    forall s, o | WithinCapacity(s) ensures WithinCapacity(Step(s, o)) <==> !Overfills(s, o) { StepFitsIff(s, o); }
    GoodIffSafe(Step, db, ops, (s: Db) => true, (s: Db) => WithinCapacity(s), (s, o) => !Overfills(s, o), |ops|);
  }

  /** The smallest case: one guest in a room for two becomes nine. */
  lemma NineInADouble()
    ensures var db, e := Lodging(map[3 := OneNighter(5, 100, 103, Confirmed)]), Edit(None, None, Some(9));
      && WithinCapacity(db) && UpdateError(db.bookings, 1, 3, e).None?
      && !WithinCapacity(AfterUpdate(db, 1, 3, e, 100, EditFaults(false, false)))
  {
    var db, e := Lodging(map[3 := OneNighter(5, 100, 103, Confirmed)]), Edit(None, None, Some(9));
    assert RoomAvailable(db.bookings, 7, 100, 103, Some(3));
    EditFitsIff(db, UpdateBooking(1, 3, e, 100, EditFaults(false, false)));
  }

  // ---------- a closed order ----------

  predicate SameIfNamed(a: Item, b: Item) { a.id == b.id ==> a == b }

  /** Items are told apart by their id. */
  ghost predicate ItemsApart(db: Db) {
    && (forall it | it in db.items :: it.id < db.next && it.order < |db.orders|)
    && forall a, b {:trigger SameIfNamed(a, b)} | a in db.items && b in db.items :: SameIfNamed(a, b)
  }

  /** Order o is closed and holds these items. */
  ghost predicate ClosedWith(db: Db, o: nat, its: seq<Item>) {
    o < |db.orders| && !db.orders[o].open && Where(db.items, OfOrder(o)) == its
  }

  /** Items are added to order o. */
  predicate AddsTo(db: Db, op: Op, o: nat) {
    op.AddItems? && op.order == o && AddError(db, op.org, op.order, op.wanted, op.of).None?
  }

  lemma ItemsJoin(db: Db, after: Db, org: Id, order: nat, qs: seq<ItemRequest>)
    requires ItemsApart(db) && ItemsError(db.menu, org, qs, |qs|).None?
    requires after.items == db.items + NewItems(db.menu, org, order, db.next, qs, |qs|)
    requires after.next == db.next + |qs| && order < |after.orders| && |db.orders| <= |after.orders|
    ensures ItemsApart(after)
  {
    var its := NewItems(db.menu, org, order, db.next, qs, |qs|);
    assert forall it | it in its :: db.next <= it.id < after.next && it.order == order;
    forall a, b | a in after.items && b in after.items ensures SameIfNamed(a, b) {
      assert a in db.items && b in db.items ==> SameIfNamed(a, b);
    }
  }

  lemma ItemsOfAfter(items: seq<Item>, more: seq<Item>, order: nat, o: nat)
    requires forall it | it in more :: it.order == order
    ensures Where(items + more, OfOrder(o)) == Where(items, OfOrder(o)) + if o == order then more else []
  {
    WhereConcat(items, more, OfOrder(o));
    if o == order { WhereAll(more, OfOrder(o)); } else { WhereNone(more, OfOrder(o)); }
  }

  /** What billing and booking calls never touch. */
  ghost predicate SameOrders(db: Db, after: Db) {
    && after.items == db.items && |after.orders| == |db.orders| && db.next <= after.next
    && forall k | 0 <= k < |db.orders| :: after.orders[k].open == db.orders[k].open
  }

  lemma SameOrdersKeep(db: Db, after: Db, o: nat, its: seq<Item>)
    requires ItemsApart(db) && SameOrders(db, after)
    ensures ItemsApart(after) && (ClosedWith(db, o, its) ==> ClosedWith(after, o, its))
  {}

  lemma BatchSameOrders(db: Db, org: Id, q: BatchRequest, year: nat, f: BatchFaults, g: InvoiceFaults)
    requires Numbered(db)
    ensures SameOrders(db, AfterCorporate(db, org, q, year, f, g))
  {
    BatchBookings(db, org, q, year, f, g);
    BatchExtends(db, org, q);
  }

  lemma DeleteSameOrders(db: Db, org: Id, id: Id)
    ensures SameOrders(db, AfterDelete(db, org, id))
  {}

  lemma UpdateSameOrders(db: Db, org: Id, id: Id, e: Edit, today: int, f: EditFaults)
    ensures SameOrders(db, AfterUpdate(db, org, id, e, today, f))
  {}

  lemma StatusSameOrders(db: Db, org: Id, id: Id, to: Status, year: nat, f: StatusFaults)
    ensures SameOrders(db, AfterStatus(db, org, id, to, year, f))
  {}

  lemma NewStaysSameOrders(db: Db, org: Id, profile: Option<Id>, q: StayRequest, f: StayFaults, g: GuestFaults)
    ensures SameOrders(db, AfterIndividual(db, org, q, f))
    ensures SameOrders(db, AfterGuest(db, profile, q, g))
  {}

  lemma BookingSameOrders(db: Db, op: Op)
    requires Numbered(db) && !OrderOp(op)
    ensures SameOrders(db, Step(db, op))
  {
    match op
    case CreateIndividual(org, q, f) => NewStaysSameOrders(db, org, None, q, f, GuestFaults(false, false));
    case GuestCreate(profile, q, f) => NewStaysSameOrders(db, 0, profile, q, StayFaults(false, false), f);
    case CreateCorporate(org, q, year, f, g) => BatchSameOrders(db, org, q, year, f, g);
    case DeleteBooking(org, id) => DeleteSameOrders(db, org, id);
    case UpdateBooking(org, id, e, today, f) => UpdateSameOrders(db, org, id, e, today, f);
    case UpdateStatus(org, id, to, year, f) => StatusSameOrders(db, org, id, to, year, f);
    case _ =>
  }

  lemma BillingSameOrders(db: Db, org: Id, booking: Option<Id>, its: seq<Item>, f: OrderFaults)
    ensures var after := AfterBilling(db, org, booking, its, f);
      after.items == db.items && after.orders == db.orders && after.next == db.next
  {}

  lemma PlaceApart(db: Db, org: Id, booking: Id, qs: seq<ItemRequest>, today: int, f: OrderFaults,
                   o: nat, its: seq<Item>)
    requires ItemsApart(db)
    ensures ItemsApart(AfterPlace(db, org, booking, qs, today, f))
    ensures ClosedWith(db, o, its) ==> ClosedWith(AfterPlace(db, org, booking, qs, today, f), o, its)
  {
    if PlaceOrderError(db, org, booking, qs, f).None? {
      var stored, more := WithOrder(db, org, Some(booking), qs, today),
        NewItems(db.menu, org, |db.orders|, db.next, qs, |qs|);
      BillingSameOrders(stored, org, Some(booking), more, f);
      ItemsJoin(db, AfterPlace(db, org, booking, qs, today, f), org, |db.orders|, qs);
      ItemsOfAfter(db.items, more, |db.orders|, o);
    }
  }

  lemma WalkInApart(db: Db, org: Id, qs: seq<ItemRequest>, today: int, f: OrderFaults, o: nat, its: seq<Item>)
    requires ItemsApart(db)
    ensures ItemsApart(AfterWalkIn(db, org, qs, today, f))
    ensures ClosedWith(db, o, its) ==> ClosedWith(AfterWalkIn(db, org, qs, today, f), o, its)
  {
    if WalkInError(db, org, qs, f).None? {
      ItemsJoin(db, AfterWalkIn(db, org, qs, today, f), org, |db.orders|, qs);
      ItemsOfAfter(db.items, NewItems(db.menu, org, |db.orders|, db.next, qs, |qs|), |db.orders|, o);
    }
  }

  lemma AddStaysApart(db: Db, org: Id, order: nat, qs: seq<ItemRequest>, f: OrderFaults)
    requires ItemsApart(db)
    ensures ItemsApart(AfterAdd(db, org, order, qs, f))
  {
    if AddError(db, org, order, qs, f).None? {
      BillingSameOrders(WithItems(db, org, order, qs), org, db.orders[order].booking,
        NewItems(db.menu, org, order, db.next, qs, |qs|), f);
      ItemsJoin(db, AfterAdd(db, org, order, qs, f), org, order, qs);
    }
  }

  /** A closed order keeps its items through an addition exactly unless it is to this order. */
  lemma AddToClosedIff(db: Db, org: Id, order: nat, qs: seq<ItemRequest>, f: OrderFaults, o: nat, its: seq<Item>)
    requires ClosedWith(db, o, its)
    ensures ClosedWith(AfterAdd(db, org, order, qs, f), o, its)
      <==> !(AddError(db, org, order, qs, f).None? && order == o)
  {
    if AddError(db, org, order, qs, f).None? {
      var more := NewItems(db.menu, org, order, db.next, qs, |qs|);
      BillingSameOrders(WithItems(db, org, order, qs), org, db.orders[order].booking, more, f);
      ItemsOfAfter(db.items, more, order, o);
      assert o == order ==> |its + more| > |its|;
    }
  }

  /** One addition changes no closed order if and only if it is refused or its own order is open. */
  lemma AddLeavesClosedIff(db: Db, org: Id, order: nat, qs: seq<ItemRequest>, f: OrderFaults)
    ensures (forall o: nat | o < |db.orders| && !db.orders[o].open ::
               Where(AfterAdd(db, org, order, qs, f).items, OfOrder(o)) == Where(db.items, OfOrder(o)))
      <==> !(AddError(db, org, order, qs, f).None? && !db.orders[order].open)
  {
    var after := AfterAdd(db, org, order, qs, f);
    if AddError(db, org, order, qs, f).None? {
      var more := NewItems(db.menu, org, order, db.next, qs, |qs|);
      BillingSameOrders(WithItems(db, org, order, qs), org, db.orders[order].booking, more, f);
      forall o: nat
        ensures Where(after.items, OfOrder(o)) == Where(db.items, OfOrder(o)) + if o == order then more else []
      { ItemsOfAfter(db.items, more, order, o); }
      assert |Where(db.items, OfOrder(order)) + more| > |Where(db.items, OfOrder(order))|;
    }
  }

  lemma RemovalItems(db: Db, org: Id, order: nat, item: Id)
    requires RemoveError(db, org, order, item).None?
    ensures var after := AfterRemove(db, org, order, item);
      after.items == Where(db.items, OtherThan(item)) && after.orders == db.orders && after.next == db.next
  {}

  lemma RemovalApart(db: Db, org: Id, order: nat, item: Id, o: nat, its: seq<Item>)
    requires ItemsApart(db)
    ensures ItemsApart(AfterRemove(db, org, order, item))
    ensures ClosedWith(db, o, its) ==> ClosedWith(AfterRemove(db, org, order, item), o, its)
  {
    if RemoveError(db, org, order, item).None? {
      RemovalItems(db, org, order, item);
      if ClosedWith(db, o, its) {
        var taken :| taken in db.items && taken.id == item && taken.order == order;
        forall it | it in its ensures it.id != item { assert SameIfNamed(it, taken); }
        WhereCommutes(db.items, OtherThan(item), OfOrder(o));
        WhereAll(its, OtherThan(item));
      }
    }
  }

  lemma CloseApart(db: Db, org: Id, today: int, o: nat, its: seq<Item>)
    requires ItemsApart(db)
    ensures ItemsApart(AfterClose(db, org, today))
    ensures ClosedWith(db, o, its) ==> ClosedWith(AfterClose(db, org, today), o, its)
  {}

  ghost predicate KeepsClosedIff(db: Db, op: Op, o: nat, its: seq<Item>) {
    && ItemsApart(Step(db, op))
    && (ClosedWith(db, o, its) ==> (ClosedWith(Step(db, op), o, its) <==> !AddsTo(db, op, o)))
  }

  lemma AddKeepsClosedIff(db: Db, op: Op, o: nat, its: seq<Item>)
    requires ItemsApart(db) && op.AddItems?
    ensures KeepsClosedIff(db, op, o, its)
  {
    AddStaysApart(db, op.org, op.order, op.wanted, op.of);
    if ClosedWith(db, o, its) { AddToClosedIff(db, op.org, op.order, op.wanted, op.of, o, its); }
  }

  lemma NewOrderKeepsClosed(db: Db, op: Op, o: nat, its: seq<Item>)
    requires ItemsApart(db) && (op.PlaceOrder? || op.PlaceWalkIn?)
    ensures KeepsClosedIff(db, op, o, its)
  {
    if op.PlaceOrder? { PlaceApart(db, op.org, op.booking, op.wanted, op.today, op.of, o, its); }
    else { WalkInApart(db, op.org, op.wanted, op.today, op.of, o, its); }
  }

  lemma LessKeepsClosed(db: Db, op: Op, o: nat, its: seq<Item>)
    requires ItemsApart(db) && (op.RemoveItem? || op.CloseAllOrders?)
    ensures KeepsClosedIff(db, op, o, its)
  {
    if op.RemoveItem? { RemovalApart(db, op.org, op.order, op.item, o, its); }
    else { CloseApart(db, op.org, op.today, o, its); }
  }

  lemma BookingKeepsClosed(db: Db, op: Op, o: nat, its: seq<Item>)
    requires Numbered(db) && ItemsApart(db) && !OrderOp(op)
    ensures KeepsClosedIff(db, op, o, its)
  {
    BookingSameOrders(db, op);
    SameOrdersKeep(db, Step(db, op), o, its);
  }

  lemma StepClosedIff(db: Db, op: Op, o: nat, its: seq<Item>)
    requires Numbered(db) && ItemsApart(db)
    ensures ItemsApart(Step(db, op))
    ensures ClosedWith(db, o, its) ==> (ClosedWith(Step(db, op), o, its) <==> !AddsTo(db, op, o))
  {
    assert KeepsClosedIff(db, op, o, its) by {
      if op.AddItems? { AddKeepsClosedIff(db, op, o, its); }
      else if op.PlaceOrder? || op.PlaceWalkIn? { NewOrderKeepsClosed(db, op, o, its); }
      else if op.RemoveItem? || op.CloseAllOrders? { LessKeepsClosed(db, op, o, its); }
      else { BookingKeepsClosed(db, op, o, its); }
    }
  }

  /** Over every run: a closed order stays closed with exactly the items it was closed with, at every
      moment, if and only if nothing is added to it. (Nothing is ever taken off it.) */
  lemma ClosedOrderOverRuns(db: Db, ops: seq<Op>, o: nat)
    requires Numbered(db) && ItemsApart(db) && o < |db.orders| && !db.orders[o].open
    ensures var its := Where(db.items, OfOrder(o));
      GoodThroughout(Step, db, ops, (s: Db) => ClosedWith(s, o, its), |ops|)
      <==> SafeThroughout(Step, db, ops, (s, op) => !AddsTo(s, op, o), |ops|)
  {
    var its := Where(db.items, OfOrder(o));
    forall s, op | Numbered(s) && ItemsApart(s)
      ensures Numbered(Step(s, op)) && ItemsApart(Step(s, op))
      ensures ClosedWith(s, o, its) ==> (ClosedWith(Step(s, op), o, its) <==> !AddsTo(s, op, o))
    {
      StepIsExact(s, op);
      StepClosedIff(s, op, o, its);
    }
    GoodIffSafe(Step, db, ops, (s: Db) => Numbered(s) && ItemsApart(s), (s: Db) => ClosedWith(s, o, its),
      (s, op) => !AddsTo(s, op, o), |ops|);
  }

  /** The smallest case: a dinner on yesterday's closed order, and on the bill. */
  lemma DinnerOnAClosedOrder()
    ensures var db := AfterClose(OneStay(), 1, 100);
      var after := AfterAdd(db, 1, 0, [ItemRequest(9, 1)], FAULTLESS);
      && !db.orders[0].open && db.items == [] && AddError(db, 1, 0, [ItemRequest(9, 1)], FAULTLESS).None?
      && !after.orders[0].open && |after.items| == 1 && after.items[0].order == 0
  {
    var db := AfterClose(OneStay(), 1, 100);
    assert ItemsError(db.menu, 1, [ItemRequest(9, 1)], 0).None?;
    BillingSameOrders(WithItems(db, 1, 0, [ItemRequest(9, 1)]), 1, db.orders[0].booking,
      NewItems(db.menu, 1, 0, db.next, [ItemRequest(9, 1)], 1), FAULTLESS);
  }

  // ---------- a refused booking ----------

  /** A refused booking changes nothing but for the client created on the fly, which stays. */
  lemma StrayClientIff(db: Db, org: Id, q: StayRequest, f: StayFaults)
    requires Numbered(db) && IndividualError(db, org, q, f).Some?
    ensures AfterIndividual(db, org, q, f) != db <==> q.client == New(true) && !f.client
    ensures AfterIndividual(db, org, q, f) != db ==>
      AfterIndividual(db, org, q, f) == db.(individuals := db.individuals[db.next := Some(org)], next := db.next + 1)
  {}
}
