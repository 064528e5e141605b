/** Where an ordered item is billed, over runs: on which invoice, by how many lines, and for how long. */
module ItemLines {
  import opened Prelude
  import opened Schema
  import opened Reservations
  import opened Billing
  import opened LodgeSteps
  import opened BookingRuns
  import opened BillingRuns
  import opened BillingTheorems
  import opened CompanyBills
  import opened OrderCalls
  import opened Runs

  function ForItem(i: Id): Line -> bool { (l: Line) => l.orderItem == Some(i) }

  /** The line but for its booking, which a deletion clears. */
  function Unaddressed(): Line -> Line { (l: Line) => l.(booking := None) }

  /** What an invoice asks for an order item. */
  function LinesFor(lines: seq<Line>, i: Id): seq<Line> { Each(Where(lines, ForItem(i)), Unaddressed()) }

  ghost predicate SameFor(a: Invoice, b: Invoice, i: Id) { LinesFor(a.lines, i) == LinesFor(b.lines, i) }

  ghost predicate NothingFor(inv: Invoice, i: Id) { LinesFor(inv.lines, i) == [] }

  /** No invoice asks more, less or otherwise for the item than before, and no new one asks for it. */
  ghost predicate LinesKept(before: seq<Invoice>, after: seq<Invoice>, i: Id) {
    && |before| <= |after|
    && (forall k {:trigger SameFor(before[k], after[k], i)} | 0 <= k < |before| :: SameFor(before[k], after[k], i))
    && (forall k {:trigger NothingFor(after[k], i)} | |before| <= k < |after| :: NothingFor(after[k], i))
  }

  lemma NothingMoved(before: seq<Invoice>, after: seq<Invoice>, i: Id)
    requires |before| == |after| && forall k | 0 <= k < |before| :: after[k].lines == before[k].lines
    ensures LinesKept(before, after, i)
  {}

  lemma NoneForIt(lines: seq<Line>, i: Id)
    requires forall l | l in lines :: l.orderItem != Some(i)
    ensures LinesFor(lines, i) == []
  {
    WhereNone(lines, ForItem(i));
  }

  lemma OneMoreInvoice(invs: seq<Invoice>, inv: Invoice, i: Id)
    requires forall l | l in inv.lines :: l.orderItem.None?
    ensures LinesKept(invs, invs + [inv], i)
  {
    NoneForIt(inv.lines, i);
    assert forall k | 0 <= k < |invs| :: (invs + [inv])[k] == invs[k];
  }

  lemma OneRewritten(invs: seq<Invoice>, k: nat, inv: Invoice, i: Id)
    requires k < |invs| && SameFor(invs[k], inv, i)
    ensures LinesKept(invs, invs[k := inv], i)
  {}

  /** Rewriting lines one by one, where those of the item are at most readdressed. */
  lemma RewrittenLines(lines: seq<Line>, f: Line -> Line, i: Id)
    requires forall l | l in lines :: ForItem(i)(f(l)) == ForItem(i)(l)
    requires forall l | l in lines && ForItem(i)(l) :: Unaddressed()(f(l)) == Unaddressed()(l)
    ensures LinesFor(Each(lines, f), i) == LinesFor(lines, i)
  {
    WhereEach(lines, f, ForItem(i), ForItem(i));
    var mine := Where(lines, ForItem(i));
    forall k | 0 <= k < |mine| ensures Unaddressed()(f(mine[k])) == Unaddressed()(mine[k]) { assert mine[k] in mine; }
  }

  // ---------- call by call ----------

  lemma RechargeKeepsLines(db: Db, org: Id, id: Id, today: int, lost: bool, i: Id)
    requires Books(db)
    ensures LinesKept(db.invoices, AfterRecharge(db, org, id, today, lost).invoices, i)
  {
    var k := FindOwn(db.invoices, id, org);
    if !lost && InOrg(db.bookings, org, id) && k.Some? && RoomKnown(db, org, db.bookings[id].room) {
      var nights, price := Nights(db.bookings[id]), db.rooms[db.bookings[id].room].price;
      assert InvoiceOk(db, db.invoices[k.value]);
      RewrittenLines(db.invoices[k.value].lines, Recharged(nights, price), i);
      OneRewritten(db.invoices, k.value, SetRoomCharge(db.invoices[k.value], nights, price, today), i);
    } else {
      NothingMoved(db.invoices, db.invoices, i);
    }
  }

  lemma UpdateKeepsLines(db: Db, org: Id, id: Id, e: Edit, today: int, f: EditFaults, i: Id)
    requires Books(db)
    ensures LinesKept(db.invoices, AfterUpdate(db, org, id, e, today, f).invoices, i)
  {
    NothingMoved(db.invoices, db.invoices, i);
    if Unwritten(UpdateError(db.bookings, org, id, e), f.write).None? {
      var stored := db.(bookings := db.bookings[id := Edited(db.bookings[id], e)]);
      BookingsMoved(db, stored);
      RechargeKeepsLines(stored, org, id, today, f.recharge, i);
    }
  }

  lemma GenerateKeepsLines(db: Db, org: Id, id: Id, year: nat, f: InvoiceFaults, i: Id)
    ensures LinesKept(db.invoices, AfterGenerate(db, org, id, year, f).invoices, i)
  {
    var after := AfterGenerate(db, org, id, year, f);
    NothingMoved(db.invoices, db.invoices, i);
    if after.invoices != db.invoices { OneMoreInvoice(db.invoices, after.invoices[|db.invoices|], i); }
  }

  lemma StatusKeepsLines(db: Db, org: Id, id: Id, to: Status, year: nat, f: StatusFaults, i: Id)
    ensures LinesKept(db.invoices, AfterStatus(db, org, id, to, year, f).invoices, i)
  {
    NothingMoved(db.invoices, db.invoices, i);
    if Unwritten(StatusError(db.bookings, org, id, to), f.write).None? {
      GenerateKeepsLines(db.(bookings := Restated(db.bookings, id, to)), org, id, year, f.invoice, i);
    }
  }

  lemma BatchKeepsLines(db: Db, op: Op, i: Id)
    requires Books(db) && op.CreateCorporate?
    ensures LinesKept(db.invoices, Step(db, op).invoices, i)
  {
    NothingMoved(db.invoices, db.invoices, i);
    if BatchError(db, op.org, op.batch, op.bf).None? {
      BatchOutcome(db, op);
      var inv := BatchInvoice(db, op.org, op.batch, op.year, op.invf.unread);
      CompanyLinesAreRoomLines(WithBatch(db, op.org, op.batch), op.org, BatchIds(db, op.org, op.batch),
        |op.batch.guests|, op.invf.unread);
      OneMoreInvoice(db.invoices, inv, i);
    }
  }

  lemma DeleteKeepsLines(db: Db, org: Id, id: Id, i: Id)
    ensures LinesKept(db.invoices, AfterDelete(db, org, id).invoices, i)
  {
    NothingMoved(db.invoices, db.invoices, i);
    if DeleteError(db, org, id).None? {
      forall k | 0 <= k < |db.invoices| ensures SameFor(db.invoices[k], LinesDetached(id)(db.invoices[k]), i) {
        RewrittenLines(db.invoices[k].lines, LineDetached(id), i);
      }
    }
  }

  lemma JobKeepsLines(db: Db, orgs: set<Id>, today: int, faults: JobFaults, i: Id)
    ensures LinesKept(db.invoices, AfterOverdue(db, orgs, today, faults).invoices, i)
  {
    JobLeavesChargesAlone(db, orgs, today, faults);
    var after := AfterOverdue(db, orgs, today, faults).invoices;
    forall k | 0 <= k < |db.invoices| ensures after[k].lines == db.invoices[k].lines {
      assert after[k] == db.invoices[k].(due := after[k].due);
    }
    NothingMoved(db.invoices, after, i);
  }

  lemma AppendKeepsLines(inv: Invoice, its: seq<Item>, b: Id, i: Id)
    requires forall it | it in its :: it.id != i
    ensures SameFor(inv, AppendLines(inv, Each(its, AsLine(b))), i)
  {
    var lines := Each(its, AsLine(b));
    AppendedLines(inv, lines);
    WhereConcat(inv.lines, lines, ForItem(i));
    WhereNone(lines, ForItem(i));
  }

  lemma BillingKeepsLines(db: Db, org: Id, booking: Option<Id>, its: seq<Item>, f: OrderFaults, i: Id)
    requires forall it | it in its :: it.id != i
    ensures LinesKept(db.invoices, AfterBilling(db, org, booking, its, f).invoices, i)
  {
    NothingMoved(db.invoices, db.invoices, i);
    if booking.Some? && !f.unread && BillTo(db, org, booking.value).Some? {
      var k, billed := BillTo(db, org, booking.value).value, Billed(its, f.lost, |its|);
      AppendKeepsLines(db.invoices[k], billed, booking.value, i);
      OneRewritten(db.invoices, k, AppendLines(db.invoices[k], Each(billed, AsLine(booking.value))), i);
    }
  }

  lemma PlaceKeepsLines(db: Db, op: Op, i: Id)
    requires op.PlaceOrder? && i < db.next
    ensures LinesKept(db.invoices, Step(db, op).invoices, i)
  {
    NothingMoved(db.invoices, db.invoices, i);
    if PlaceOrderError(db, op.org, op.booking, op.wanted, op.of).None? {
      BillingKeepsLines(WithOrder(db, op.org, Some(op.booking), op.wanted, op.today), op.org, Some(op.booking),
        NewItems(db.menu, op.org, |db.orders|, db.next, op.wanted, |op.wanted|), op.of, i);
    }
  }

  lemma AddKeepsLines(db: Db, op: Op, i: Id)
    requires op.AddItems? && i < db.next
    ensures LinesKept(db.invoices, Step(db, op).invoices, i)
  {
    NothingMoved(db.invoices, db.invoices, i);
    if AddError(db, op.org, op.order, op.wanted, op.of).None? {
      BillingKeepsLines(WithItems(db, op.org, op.order, op.wanted), op.org, db.orders[op.order].booking,
        NewItems(db.menu, op.org, op.order, db.next, op.wanted, |op.wanted|), op.of, i);
    }
  }

  lemma RemovalKeepsLines(db: Db, org: Id, order: nat, item: Id, i: Id)
    requires Books(db) && (item != i || RemoveError(db, org, order, item).Some?)
    ensures LinesKept(db.invoices, AfterRemove(db, org, order, item).invoices, i)
  {
    NothingMoved(db.invoices, db.invoices, i);
    if RemoveError(db, org, order, item).None? {
      forall k | 0 <= k < |db.invoices| ensures Balanced(db.invoices[k]) { assert InvoiceOk(db, db.invoices[k]); }
      RemovalOnlyOrphans(db, org, order, item);
      forall k | 0 <= k < |db.invoices| ensures SameFor(db.invoices[k], Unlink(db.invoices[k], item), i) {
        RewrittenLines(db.invoices[k].lines, Unlinked(item), i);
      }
    }
  }

  /** The item is taken off its order. */
  predicate TakenOff(db: Db, op: Op, i: Id) {
    op.RemoveItem? && op.item == i && RemoveError(db, op.org, op.order, op.item).None?
  }

  lemma BookingKeepsLines(db: Db, op: Op, i: Id)
    requires Books(db) && !OrderOp(op)
    ensures LinesKept(db.invoices, Step(db, op).invoices, i)
  {
    match op
    case CreateCorporate(_, _, _, _, _) => BatchKeepsLines(db, op, i);
    case UpdateBooking(org, id, e, today, f) => UpdateKeepsLines(db, org, id, e, today, f, i);
    case UpdateStatus(org, id, to, year, f) => StatusKeepsLines(db, org, id, to, year, f, i);
    case DeleteBooking(org, id) => DeleteKeepsLines(db, org, id, i);
    case OverdueJob(orgs, today, faults) => JobKeepsLines(db, orgs, today, faults, i);
    case _ => NothingMoved(db.invoices, db.invoices, i);
  }

  /** No other call touches what is asked for an item that is there. */
  lemma StepKeepsLines(db: Db, op: Op, i: Id)
    requires Books(db) && i < db.next && !TakenOff(db, op, i)
    ensures LinesKept(db.invoices, Step(db, op).invoices, i)
  {
    if op.PlaceOrder? { PlaceKeepsLines(db, op, i); }
    else if op.AddItems? { AddKeepsLines(db, op, i); }
    else if op.RemoveItem? { RemovalKeepsLines(db, op.org, op.order, op.item, i); }
    else if OrderOp(op) { NothingMoved(db.invoices, db.invoices, i); }
    else { BookingKeepsLines(db, op, i); }
  }

  lemma BookingMovesOn(db: Db, op: Op)
    requires Numbered(db) && !OrderOp(op)
    ensures db.next <= Step(db, op).next
  {
    if op.CreateCorporate? {
      BatchBookings(db, op.org, op.batch, op.year, op.bf, op.invf);
      BatchExtends(db, op.org, op.batch);
    }
  }

  lemma IdsMoveOn(db: Db, op: Op)
    requires Numbered(db)
    ensures db.next <= Step(db, op).next
  {
    if OrderOp(op) { OrdersLeaveBookingsAlone(db, op); } else { BookingMovesOn(db, op); }
  }

  // ---------- the item arrives ----------

  lemma {:induction false} WhereOne<T>(s: seq<T>, p: T -> bool, x: nat)
    requires x < |s| && forall y: nat | y < |s| :: p(s[y]) <==> y == x
    ensures Where(s, p) == [s[x]]
  {
    var init := s[..|s| - 1];
    if x == |s| - 1 { WhereNone(init, p); } else { WhereOne(init, p, x); }
  }

  /** What an invoice asks for item i when it was ordered as q. */
  function Asks(db: Db, order: nat, i: Id, q: ItemRequest): Line {
    var price := PriceAt(db.menu, q);
    var quantity: nat := if q.quantity < 0 then 0 else q.quantity;
    Line(None, Some(order), Some(i), quantity, price, quantity * price)
  }

  function PriceAt(menu: map<Id, MenuItem>, q: ItemRequest): nat {
    if q.menuItem in menu then menu[q.menuItem].price else 0
  }

  lemma NewLinesFor(db: Db, b: Id, order: nat, qs: seq<ItemRequest>, f: OrderFaults, lines: seq<Line>, j: nat)
    requires j < |qs| && LinesOf(db, b, order, qs, Reaching(qs, f), lines)
    ensures LinesFor(lines, db.next + j) == if Loses(f, j) then [] else [Asks(db, order, db.next + j, qs[j])]
  {
    var seen, i := Reaching(qs, f), db.next + j;
    forall y: nat | y < |lines| ensures ForItem(i)(lines[y]) <==> seen[y] == j {
      assert LineOf(db, b, order, seen[y], qs[seen[y]], lines[y]);
    }
    if Loses(f, j) {
      WhereNone(lines, ForItem(i));
    } else {
      var x: nat :| x < |seen| && seen[x] == j;
      WhereOne(lines, ForItem(i), x);
      assert LineOf(db, b, order, j, qs[j], lines[x]);
    }
  }

  lemma LinesForBoth(lines: seq<Line>, more: seq<Line>, i: Id)
    ensures LinesFor(lines + more, i) == LinesFor(lines, i) + LinesFor(more, i)
  {
    WhereConcat(lines, more, ForItem(i));
  }

  lemma NotAskedYet(db: Db, inv: Invoice, j: nat)
    requires InvoiceOk(db, inv)
    ensures LinesFor(inv.lines, db.next + j) == []
  {
    NoneForIt(inv.lines, db.next + j);
  }

  lemma BilledLinesFor(db: Db, b: Id, order: nat, qs: seq<ItemRequest>, f: OrderFaults, was: Invoice, now: Invoice,
                       j: nat)
    requires LinesFor(was.lines, db.next + j) == [] && j < |qs| && BilledAs(db, b, order, qs, f, was, now)
    ensures LinesFor(now.lines, db.next + j) == if Loses(f, j) then [] else [Asks(db, order, db.next + j, qs[j])]
  {
    var more := now.lines[|was.lines|..];
    assert now.lines == was.lines + more;
    NewLinesFor(db, b, order, qs, f, more, j);
    LinesForBoth(was.lines, more, db.next + j);
  }

  /** What invoice p asks for the j-th of these items, ordered on b. */
  function AskedOf(db: Db, b: Id, order: nat, qs: seq<ItemRequest>, f: OrderFaults, j: nat, p: nat): seq<Line>
    requires j < |qs|
  {
    if p < |db.invoices| && Pays(db, b, db.invoices[p]) && !Loses(f, j)
    then [Asks(db, order, db.next + j, qs[j])] else []
  }

  /** Right after the call. */
  lemma JustOrdered(db: Db, after: Db, b: Id, order: nat, qs: seq<ItemRequest>, f: OrderFaults, j: nat, p: nat)
    requires Books(db) && BillsExactly(db, after, b, order, qs, f) && j < |qs| && p < |after.invoices|
    ensures LinesFor(after.invoices[p].lines, db.next + j) == AskedOf(db, b, order, qs, f, j, p)
  {
    assert LinesFor(db.invoices[p].lines, db.next + j) == [] by { NotAskedYet(db, db.invoices[p], j); }
    if Pays(db, b, db.invoices[p]) { BilledLinesFor(db, b, order, qs, f, db.invoices[p], after.invoices[p], j); }
  }

  /** An accepted call that orders something on stay b. */
  predicate Orders(db: Db, op: Op, b: Id, order: nat) {
    match op
    case PlaceOrder(org, booking, qs, _, f) =>
      PlaceOrderError(db, org, booking, qs, f).None? && b == booking && order == |db.orders|
    case AddItems(org, to, qs, f) =>
      AddError(db, org, to, qs, f).None? && db.orders[to].booking == Some(b) && order == to
    case _ => false
  }

  lemma OrdersAreBilled(db: Db, op: Op, b: Id, order: nat)
    requires Books(db) && OnePerCompany(db.invoices) && Orders(db, op, b, order)
    ensures BillsExactly(db, Step(db, op), b, order, op.wanted, op.of)
    ensures Step(db, op).next == db.next + |op.wanted|
  {
    if op.PlaceOrder? {
      PlaceIsBilledTo(db, op.org, op.booking, op.wanted, op.today, op.of);
      PlaceStores(db, op.org, op.booking, op.wanted, op.today, op.of);
    } else {
      AddIsBilledTo(db, op.org, op.order, op.wanted, op.of);
      AddStores(db, op.org, op.order, op.wanted, op.of);
    }
  }

  // ---------- over runs ----------

  /** Up to the m-th moment nobody takes the item off its order. */
  ghost predicate LeftAlone(db: Db, ops: seq<Op>, m: nat, i: Id)
    requires m <= |ops|
  { m == 0 || (LeftAlone(db, ops, m - 1, i) && !TakenOff(At(Step, db, ops, m - 1), ops[m - 1], i)) }

  lemma {:induction false} LinesStay(db: Db, ops: seq<Op>, m: nat, i: Id)
    requires Books(db) && m <= |ops| && i < db.next && LeftAlone(db, ops, m, i)
    ensures i < At(Step, db, ops, m).next
    ensures LinesKept(db.invoices, At(Step, db, ops, m).invoices, i)
  {
    if m == 0 {
      NothingMoved(db.invoices, db.invoices, i);
    } else {
      var before := At(Step, db, ops, m - 1);
      LinesStay(db, ops, m - 1, i);
      RunKeepsBooks(db, ops, m - 1);
      StepKeepsLines(before, ops[m - 1], i);
      IdsMoveOn(before, ops[m - 1]);
      KeptTwice(db.invoices, before.invoices, Step(before, ops[m - 1]).invoices, i);
    }
  }

  lemma KeptTwice(a: seq<Invoice>, b: seq<Invoice>, c: seq<Invoice>, i: Id)
    requires LinesKept(a, b, i) && LinesKept(b, c, i)
    ensures LinesKept(a, c, i)
  {
    forall k | 0 <= k < |a| ensures SameFor(a[k], c[k], i) { assert SameFor(a[k], b[k], i) && SameFor(b[k], c[k], i); }
    forall k | |a| <= k < |c| ensures NothingFor(c[k], i) {
      if k < |b| { assert NothingFor(b[k], i) && SameFor(b[k], c[k], i); }
    }
  }

  /** From the call on. */
  lemma OrderedAndKept(was: Db, after: Db, now: Db, b: Id, order: nat, qs: seq<ItemRequest>, f: OrderFaults, j: nat)
    requires Books(was) && BillsExactly(was, after, b, order, qs, f) && j < |qs|
    requires LinesKept(after.invoices, now.invoices, was.next + j)
    ensures |was.invoices| <= |now.invoices|
    ensures forall p: nat | p < |now.invoices| ::
      LinesFor(now.invoices[p].lines, was.next + j) == AskedOf(was, b, order, qs, f, j, p)
  {
    forall p: nat | p < |now.invoices|
      ensures LinesFor(now.invoices[p].lines, was.next + j) == AskedOf(was, b, order, qs, f, j, p)
    {
      if p < |after.invoices| {
        JustOrdered(was, after, b, order, qs, f, j, p);
        assert SameFor(after.invoices[p], now.invoices[p], was.next + j);
      } else {
        assert NothingFor(now.invoices[p], was.next + j);
      }
    }
  }

  /** After any calls before it, and over every run of calls after it, whatever fails: an item ordered on
      a stay is asked for by exactly one line of exactly one invoice, the one that paid for the stay when
      the item was ordered, at the quantity and price of then; unless there was none, or its line got
      lost, and then by none. It stays so until the item is taken off its order. */
  lemma ItemIsBilledOnce(db: Db, op: Op, ops: seq<Op>, m: nat, b: Id, order: nat, j: nat)
    requires Books(db) && OnePerCompany(db.invoices) && Orders(db, op, b, order) && j < |op.wanted|
    requires m <= |ops| && LeftAlone(Step(db, op), ops, m, db.next + j)
    ensures var now := At(Step, Step(db, op), ops, m);
      && |db.invoices| <= |now.invoices|
      && forall p: nat | p < |now.invoices| ::
           LinesFor(now.invoices[p].lines, db.next + j) == AskedOf(db, b, order, op.wanted, op.of, j, p)
  {
    OrdersAreBilled(db, op, b, order);
    StepKeepsBooks(db, op);
    KeptAfterwards(db, Step(db, op), ops, m, b, order, op.wanted, op.of, j);
  }

  lemma KeptAfterwards(db: Db, after: Db, ops: seq<Op>, m: nat, b: Id, order: nat, qs: seq<ItemRequest>,
                       f: OrderFaults, j: nat)
    requires Books(db) && BillsExactly(db, after, b, order, qs, f) && j < |qs|
    requires Books(after) && after.next == db.next + |qs| && m <= |ops| && LeftAlone(after, ops, m, db.next + j)
    ensures var now := At(Step, after, ops, m);
      && |db.invoices| <= |now.invoices|
      && forall p: nat | p < |now.invoices| ::
           LinesFor(now.invoices[p].lines, db.next + j) == AskedOf(db, b, order, qs, f, j, p)
  {
    LinesStay(after, ops, m, db.next + j);
    OrderedAndKept(db, after, At(Step, after, ops, m), b, order, qs, f, j);
  }

  /** A company has an invoice in this organisation. */
  ghost predicate HasInvoice(db: Db, company: Option<Id>, org: Id) {
    exists p: nat :: p < |db.invoices| && db.invoices[p].company == company && db.invoices[p].org == org
  }

  /** Some invoice asks for the item. */
  ghost predicate IsBilled(db: Db, i: Id) {
    exists p: nat :: p < |db.invoices| && LinesFor(db.invoices[p].lines, i) != []
  }

  lemma AskedOfCompany(was: Db, now: Db, b: Id, order: nat, qs: seq<ItemRequest>, f: OrderFaults, j: nat)
    requires j < |qs| && |was.invoices| <= |now.invoices| && b in was.bookings && was.bookings[b].company.Some?
    requires forall p: nat | p < |now.invoices| ::
      LinesFor(now.invoices[p].lines, was.next + j) == AskedOf(was, b, order, qs, f, j, p)
    ensures IsBilled(now, was.next + j) <==>
      HasInvoice(was, was.bookings[b].company, was.bookings[b].org) && !Loses(f, j)
  {
    if HasInvoice(was, was.bookings[b].company, was.bookings[b].org) && !Loses(f, j) {
      var p: nat :| p < |was.invoices| && was.invoices[p].company == was.bookings[b].company
        && was.invoices[p].org == was.bookings[b].org;
      assert AskedOf(was, b, order, qs, f, j, p) != [];
    }
  }

  /** In particular for a company's stay: an item is billed, and then on the company's invoice, exactly if
      the company had one when it was ordered and the line was not lost. */
  lemma CompanyPaysIff(db: Db, op: Op, ops: seq<Op>, m: nat, b: Id, order: nat, j: nat)
    requires Books(db) && OnePerCompany(db.invoices) && Orders(db, op, b, order) && j < |op.wanted|
    requires m <= |ops| && LeftAlone(Step(db, op), ops, m, db.next + j)
    requires b in db.bookings && db.bookings[b].company.Some?
    ensures IsBilled(At(Step, Step(db, op), ops, m), db.next + j) <==>
      HasInvoice(db, db.bookings[b].company, db.bookings[b].org) && !Loses(op.of, j)
  {
    ItemIsBilledOnce(db, op, ops, m, b, order, j);
    AskedOfCompany(db, At(Step, Step(db, op), ops, m), b, order, op.wanted, op.of, j);
  }
}
