/** Company invoices over runs: how many a company has, whether they bill its stays, and whether they
    charge the nights those stays have. */
module CompanyBills {
  import opened Prelude
  import opened Schema
  import opened Reservations
  import opened Billing
  import opened InvoiceNumbers
  import opened LodgeSteps
  import opened BookingRuns
  import opened BillingRuns
  import opened BillingTheorems
  import opened StayCharges
  import opened Runs

  /** The lines of a company's invoice that charge for a stay. */
  ghost function StayLines(inv: Invoice): set<Line> {
    if inv.company.None? then {} else set l | l in inv.lines && IsRoom(l) && l.booking.Some?
  }

  ghost predicate Bills(inv: Invoice, id: Id) { exists l :: l in StayLines(inv) && l.booking == Some(id) }

  /** The invoices of an organisation's company are told apart by nothing else. */
  ghost predicate OnePerCompany(invs: seq<Invoice>) {
    forall j, k | 0 <= j < k < |invs| && invs[j].company.Some? ::
      invs[j].company != invs[k].company || invs[j].org != invs[k].org
  }

  /** Stay lines name bookings that exist. */
  ghost predicate Pointed(db: Db) {
    forall k, l | 0 <= k < |db.invoices| && l in StayLines(db.invoices[k]) :: l.booking.value in db.bookings
  }

  /** Some invoice of the stay's company has a line for it. */
  ghost predicate StayBilled(db: Db, id: Id)
    requires id in db.bookings
  {
    exists k :: 0 <= k < |db.invoices| && db.invoices[k].company == db.bookings[id].company
      && db.invoices[k].org == db.bookings[id].org && Bills(db.invoices[k], id)
  }

  ghost predicate StaysBilled(db: Db) {
    forall id | id in db.bookings && db.bookings[id].company.Some? :: StayBilled(db, id)
  }

  /** Every stay line charges the nights of its stay at the room's price. */
  ghost predicate StaysPriced(db: Db) {
    forall k, l | 0 <= k < |db.invoices| && l in StayLines(db.invoices[k]) :: l.total == Owed(db, l.booking.value)
  }

  // ---------- calls that leave company accounts alone ----------

  ghost predicate SameAccount(a: Invoice, b: Invoice) {
    a.company == b.company && a.org == b.org && StayLines(a) == StayLines(b)
  }

  ghost predicate AccountsKept(before: seq<Invoice>, after: seq<Invoice>) {
    && |before| <= |after|
    && (forall k | 0 <= k < |before| :: SameAccount(before[k], after[k]))
    && (forall k | |before| <= k < |after| :: after[k].company.None?)
  }

  lemma SameInvoices(invs: seq<Invoice>)
    ensures AccountsKept(invs, invs)
  {}

  lemma OneAccountRewritten(invs: seq<Invoice>, k: nat, inv: Invoice)
    requires k < |invs| && SameAccount(invs[k], inv)
    ensures AccountsKept(invs, invs[k := inv])
  {}

  lemma RechargeAccounts(db: Db, org: Id, id: Id, today: int, lost: bool)
    requires Books(db)
    ensures AccountsKept(db.invoices, AfterRecharge(db, org, id, today, lost).invoices)
  {
    var k := FindOwn(db.invoices, id, org);
    if k.Some? { assert InvoiceOk(db, db.invoices[k.value]); }
  }

  lemma UpdateAccounts(db: Db, org: Id, id: Id, e: Edit, today: int, f: EditFaults)
    requires Books(db)
    ensures AccountsKept(db.invoices, AfterUpdate(db, org, id, e, today, f).invoices)
  {
    if Unwritten(UpdateError(db.bookings, org, id, e), f.write).None? {
      var stored := db.(bookings := db.bookings[id := Edited(db.bookings[id], e)]);
      BookingsMoved(db, stored);
      RechargeAccounts(stored, org, id, today, f.recharge);
    }
  }

  lemma StatusAccounts(db: Db, org: Id, id: Id, to: Status, year: nat, f: StatusFaults)
    ensures AccountsKept(db.invoices, AfterStatus(db, org, id, to, year, f).invoices)
  {}

  lemma JobAccounts(db: Db, orgs: set<Id>, today: int, faults: JobFaults)
    ensures AccountsKept(db.invoices, AfterOverdue(db, orgs, today, faults).invoices)
  {
    JobLeavesChargesAlone(db, orgs, today, faults);
    var after := AfterOverdue(db, orgs, today, faults);
    forall k | 0 <= k < |db.invoices| ensures SameAccount(db.invoices[k], after.invoices[k]) {
      assert after.invoices[k] == db.invoices[k].(due := after.invoices[k].due);
    }
  }

  lemma AppendedAccount(inv: Invoice, its: seq<Item>, b: Id)
    ensures SameAccount(inv, AppendLines(inv, Each(its, AsLine(b))))
  {
    AppendedLines(inv, Each(its, AsLine(b)));
  }

  lemma BillingAccounts(db: Db, org: Id, booking: Option<Id>, its: seq<Item>, f: OrderFaults)
    ensures AccountsKept(db.invoices, AfterBilling(db, org, booking, its, f).invoices)
  {
    if booking.Some? && !f.unread && BillTo(db, org, booking.value).Some? {
      var k, billed := BillTo(db, org, booking.value).value, Billed(its, f.lost, |its|);
      AppendedAccount(db.invoices[k], billed, booking.value);
      OneAccountRewritten(db.invoices, k, AppendLines(db.invoices[k], Each(billed, AsLine(booking.value))));
    }
  }

  lemma PlaceAccounts(db: Db, org: Id, b: Id, qs: seq<ItemRequest>, today: int, f: OrderFaults)
    ensures AccountsKept(db.invoices, AfterPlace(db, org, b, qs, today, f).invoices)
  {
    if PlaceOrderError(db, org, b, qs, f).None? {
      BillingAccounts(WithOrder(db, org, Some(b), qs, today), org, Some(b),
        NewItems(db.menu, org, |db.orders|, db.next, qs, |qs|), f);
    }
  }

  lemma AddAccounts(db: Db, org: Id, order: nat, qs: seq<ItemRequest>, f: OrderFaults)
    ensures AccountsKept(db.invoices, AfterAdd(db, org, order, qs, f).invoices)
  {
    if AddError(db, org, order, qs, f).None? {
      BillingAccounts(WithItems(db, org, order, qs), org, db.orders[order].booking,
        NewItems(db.menu, org, order, db.next, qs, |qs|), f);
    }
  }

  lemma UnlinkedAccount(db: Db, inv: Invoice, item: Id)
    requires InvoiceOk(db, inv)
    ensures SameAccount(inv, Unlink(inv, item))
  {
    var now := Unlink(inv, item);
    forall l | l in StayLines(inv) ensures l in StayLines(now) {
      var j :| 0 <= j < |inv.lines| && inv.lines[j] == l;
      assert now.lines[j] == l;
    }
    forall l | l in StayLines(now) ensures l in StayLines(inv) {
      var j :| 0 <= j < |now.lines| && now.lines[j] == l;
      assert inv.lines[j] in inv.lines;
    }
  }

  lemma RemovalAccounts(db: Db, org: Id, order: nat, item: Id)
    requires Books(db)
    ensures AccountsKept(db.invoices, AfterRemove(db, org, order, item).invoices)
  {
    if RemoveError(db, org, order, item).None? {
      forall k | 0 <= k < |db.invoices| ensures Balanced(db.invoices[k]) { assert InvoiceOk(db, db.invoices[k]); }
      RemovalOnlyOrphans(db, org, order, item);
      forall k | 0 <= k < |db.invoices| ensures SameAccount(db.invoices[k], Unlink(db.invoices[k], item)) {
        UnlinkedAccount(db, db.invoices[k], item);
      }
    }
  }

  /** Only a batch makes company invoices, and only a deletion takes a line's booking away. */
  predicate LeavesAccounts(op: Op) { !op.CreateCorporate? && !op.DeleteBooking? }

  lemma OrderAccounts(db: Db, op: Op)
    requires Books(db) && OrderOp(op)
    ensures AccountsKept(db.invoices, Step(db, op).invoices)
  {
    match op
    case PlaceOrder(org, b, qs, today, f) => PlaceAccounts(db, org, b, qs, today, f);
    case AddItems(org, order, qs, f) => AddAccounts(db, org, order, qs, f);
    case RemoveItem(org, order, item) => RemovalAccounts(db, org, order, item);
    case _ => SameInvoices(db.invoices);
  }

  lemma StepAccounts(db: Db, op: Op)
    requires Books(db) && LeavesAccounts(op)
    ensures AccountsKept(db.invoices, Step(db, op).invoices)
  {
    if OrderOp(op) {
      OrderAccounts(db, op);
    } else {
      match op {
        case UpdateBooking(org, id, e, today, f) => UpdateAccounts(db, org, id, e, today, f);
        case UpdateStatus(org, id, to, year, f) => StatusAccounts(db, org, id, to, year, f);
        case OverdueJob(orgs, today, faults) => JobAccounts(db, orgs, today, faults);
        case _ => SameInvoices(db.invoices);
      }
    }
  }

  /** No row goes, and a row with a company was there before, for the same company and organisation. */
  ghost predicate StaysRemain(before: Bookings, after: Bookings) {
    && before.Keys <= after.Keys
    && forall i | i in after && after[i].company.Some? ::
         i in before && before[i].company == after[i].company && before[i].org == after[i].org
  }

  lemma OneMoreRemains(bs: Bookings, id: Id, b: Booking)
    requires b.company.None?
    ensures StaysRemain(bs, bs) && StaysRemain(bs, bs[id := b])
  {}

  lemma IndividualRemains(db: Db, org: Id, q: StayRequest, f: StayFaults)
    ensures StaysRemain(db.bookings, AfterIndividual(db, org, q, f).bookings)
  {
    OneMoreRemains(db.bookings, WithClient(db, org, q.client).next, Stay(org, ClientId(db, q.client), None, q));
  }

  lemma GuestRemains(db: Db, profile: Option<Id>, q: StayRequest, f: GuestFaults)
    ensures StaysRemain(db.bookings, AfterGuest(db, profile, q, f).bookings)
  {
    if GuestError(db, profile, q, f).None? {
      OneMoreRemains(db.bookings, db.next, Stay(db.rooms[q.room].org, profile.value, None, q));
    }
  }

  lemma UpdateRemains(db: Db, org: Id, id: Id, e: Edit, today: int, f: EditFaults)
    ensures StaysRemain(db.bookings, AfterUpdate(db, org, id, e, today, f).bookings)
  {
    var after := AfterUpdate(db, org, id, e, today, f).bookings;
    assert after == db.bookings || (id in db.bookings && after == db.bookings[id := Edited(db.bookings[id], e)]);
  }

  lemma StatusRemains(db: Db, org: Id, id: Id, to: Status, year: nat, f: StatusFaults)
    ensures StaysRemain(db.bookings, AfterStatus(db, org, id, to, year, f).bookings)
  {
    if Unwritten(StatusError(db.bookings, org, id, to), f.write).None? {
      StatusBookings(db, org, id, to, year, f);
    }
  }

  lemma RestRemains(db: Db, op: Op)
    requires op.GuestCancel? || op.WorkflowOutcome? || op.OverdueJob?
    ensures StaysRemain(db.bookings, Step(db, op).bookings)
  {}

  lemma StepRemains(db: Db, op: Op)
    requires LeavesAccounts(op)
    ensures StaysRemain(db.bookings, Step(db, op).bookings)
  {
    if OrderOp(op) {
      OrdersLeaveBookingsAlone(db, op);
    } else {
      match op {
        case CreateIndividual(org, q, f) => IndividualRemains(db, org, q, f);
        case GuestCreate(profile, q, f) => GuestRemains(db, profile, q, f);
        case UpdateBooking(org, id, e, today, f) => UpdateRemains(db, org, id, e, today, f);
        case UpdateStatus(org, id, to, year, f) => StatusRemains(db, org, id, to, year, f);
        case _ => RestRemains(db, op);
      }
    }
  }

  // ---------- a deleted stay ----------

  lemma DetachedAccount(inv: Invoice, id: Id)
    ensures var now := LinesDetached(id)(inv);
      now.company == inv.company && now.org == inv.org
      && forall l :: l in StayLines(now) <==> l in StayLines(inv) && l.booking != Some(id)
  {
    var now := LinesDetached(id)(inv);
    forall l | l in StayLines(inv) && l.booking != Some(id) ensures l in StayLines(now) {
      var j :| 0 <= j < |inv.lines| && inv.lines[j] == l;
      assert now.lines[j] == l;
    }
    forall l | l in StayLines(now) ensures l in StayLines(inv) && l.booking != Some(id) {
      var j :| 0 <= j < |now.lines| && now.lines[j] == l;
      assert inv.lines[j] in inv.lines;
    }
  }

  lemma DeleteAccounts(db: Db, org: Id, id: Id)
    requires DeleteError(db, org, id).None?
    ensures var after := AfterDelete(db, org, id);
      && after.bookings == db.bookings - {id} && after.rooms == db.rooms && |after.invoices| == |db.invoices|
      && forall k | 0 <= k < |db.invoices| ::
           && after.invoices[k].company == db.invoices[k].company && after.invoices[k].org == db.invoices[k].org
           && forall l :: l in StayLines(after.invoices[k]) <==> l in StayLines(db.invoices[k]) && l.booking != Some(id)
  {
    forall k | 0 <= k < |db.invoices|
      ensures var now := LinesDetached(id)(db.invoices[k]);
        now.company == db.invoices[k].company && now.org == db.invoices[k].org
        && forall l :: l in StayLines(now) <==> l in StayLines(db.invoices[k]) && l.booking != Some(id)
    { DetachedAccount(db.invoices[k], id); }
  }

  // ---------- a batch ----------

  /** The guests' rows: new, and the company's; no other row touched. */
  ghost predicate Joined(db: Db, after: Db, company: Id, org: Id, ids: seq<Id>) {
    && after.bookings.Keys == db.bookings.Keys + (set x | x in ids)
    && (forall i | i in db.bookings :: after.bookings[i] == db.bookings[i])
    && (forall k | 0 <= k < |ids| :: ids[k] in after.bookings && ids[k] !in db.bookings
          && after.bookings[ids[k]].company == Some(company) && after.bookings[ids[k]].org == org)
    && (forall j, k | 0 <= j < k < |ids| :: ids[j] != ids[k])
  }

  lemma GuestsJoin(db: Db, org: Id, q: BatchRequest, f: BatchFaults)
    requires Books(db) && BatchError(db, org, q, f).None?
    ensures |BatchIds(db, org, q)| == |q.guests| > 0
    ensures Joined(db, WithBatch(db, org, q), ClientId(db, q.company), org, BatchIds(db, org, q))
  {
    var start, batch, ids := WithCompany(db, org, q.company), WithBatch(db, org, q), BatchIds(db, org, q);
    BatchAddsExactlyItsGuests(start, org, ClientId(db, q.company), q.guests, |q.guests|);
    forall k | 0 <= k < |ids| ensures ids[k] in batch.bookings && ids[k] !in db.bookings
      && batch.bookings[ids[k]].company == Some(ClientId(db, q.company)) && batch.bookings[ids[k]].org == org
    {
      assert Saved(batch, org, ClientId(db, q.company), q.guests[k], ids[k]);
    }
  }

  predicate Found(db: Db, org: Id, q: BatchRequest) {
    FindCompany(db.invoices, ClientId(db, q.company), org).Some?
  }

  predicate NoneRead(n: nat, unread: set<nat>) { forall i: nat | i < n :: i in unread }

  lemma NoneReadable(n: nat, unread: set<nat>)
    ensures Readable(n, unread) == [] <==> NoneRead(n, unread)
  {
    HasFirst(Readable(n, unread));
  }

  /** A committed batch that leads to no invoice. */
  predicate Skips(db: Db, org: Id, q: BatchRequest, g: InvoiceFaults) {
    (!g.lookup && Found(db, org, q)) || g.lost || NoneRead(|q.guests|, g.unread)
  }

  lemma CompanyInvoicedIff(db: Db, org: Id, company: Id, ids: seq<Id>, year: nat, f: InvoiceFaults)
    requires Counted(db.invoices)
    ensures var after, lines := AfterGenerateCompany(db, org, company, ids, year, f),
        CompanyLines(db, org, ids, |ids|, f.unread);
      var inv := NewInvoice(org, year, NextNumber(db.invoices, year), None, Some(company), None, lines);
      var skips := (!f.lookup && FindCompany(db.invoices, company, org).Some?) || f.lost || lines == [];
      after == db.(invoices := if skips then db.invoices else db.invoices + [inv])
  {
    var lines := CompanyLines(db, org, ids, |ids|, f.unread);
    InsertionSucceeds(db.invoices,
      NewInvoice(org, year, NextNumber(db.invoices, year), None, Some(company), None, lines));
  }

  /** The company's invoice: a line for each guest that could be read, and for nobody else. */
  ghost predicate ForGuests(inv: Invoice, company: Id, org: Id, ids: seq<Id>, unread: set<nat>) {
    && inv.company == Some(company) && inv.org == org
    && (forall l | l in StayLines(inv) :: exists i :: 0 <= i < |ids| && i !in unread && l.booking == Some(ids[i]))
    && (forall i | 0 <= i < |ids| && i !in unread :: Bills(inv, ids[i]))
  }

  lemma GuestHasLine(db: Db, guest: GuestRequest, id: Id, inv: Invoice, l: Line)
    requires BillsGuest(db, guest, id, l) && l in inv.lines && inv.company.Some?
    ensures Bills(inv, id)
  {
    assert l in StayLines(inv);
  }

  /** Whose line it is. */
  lemma LineOfGuest(db: Db, org: Id, q: BatchRequest, f: BatchFaults, unread: set<nat>, lines: seq<Line>, j: nat)
    returns (i: nat)
    requires Books(db) && BatchError(db, org, q, f).None?
    requires lines == CompanyLines(WithBatch(db, org, q), org, BatchIds(db, org, q), |q.guests|, unread) && j < |lines|
    ensures |BatchIds(db, org, q)| == |q.guests| && i < |q.guests| && i !in unread
    ensures BillsGuest(db, q.guests[i], BatchIds(db, org, q)[i], lines[j])
  {
    GuestsAreBilled(db, org, q, f, unread);
    i := Readable(|q.guests|, unread)[j];
  }

  lemma GuestIsBilled(db: Db, org: Id, q: BatchRequest, f: BatchFaults, unread: set<nat>, inv: Invoice, i: nat)
    requires Books(db) && BatchError(db, org, q, f).None? && inv.company.Some? && i < |q.guests| && i !in unread
    requires inv.lines == CompanyLines(WithBatch(db, org, q), org, BatchIds(db, org, q), |q.guests|, unread)
    ensures |BatchIds(db, org, q)| == |q.guests| && Bills(inv, BatchIds(db, org, q)[i])
  {
    var seen := Readable(|q.guests|, unread);
    GuestsAreBilled(db, org, q, f, unread);
    var j :| 0 <= j < |seen| && seen[j] == i;
    GuestHasLine(db, q.guests[i], BatchIds(db, org, q)[i], inv, inv.lines[j]);
  }

  lemma LinesAreForGuests(db: Db, org: Id, q: BatchRequest, f: BatchFaults, unread: set<nat>, inv: Invoice)
    requires Books(db) && BatchError(db, org, q, f).None?
    requires inv.company == Some(ClientId(db, q.company)) && inv.org == org
    requires inv.lines == CompanyLines(WithBatch(db, org, q), org, BatchIds(db, org, q), |q.guests|, unread)
    ensures ForGuests(inv, ClientId(db, q.company), org, BatchIds(db, org, q), unread)
  {
    var ids := BatchIds(db, org, q);
    forall l | l in StayLines(inv) ensures exists i :: 0 <= i < |ids| && i !in unread && l.booking == Some(ids[i]) {
      var j :| 0 <= j < |inv.lines| && inv.lines[j] == l;
      var i := LineOfGuest(db, org, q, f, unread, inv.lines, j);
    }
    forall i: nat | i < |ids| && i !in unread ensures Bills(inv, ids[i]) {
      GuestsStand(db, org, q, f);
      GuestIsBilled(db, org, q, f, unread, inv, i);
    }
  }

  ghost function BatchInvoice(db: Db, org: Id, q: BatchRequest, year: nat, unread: set<nat>): Invoice {
    NewInvoice(org, year, NextNumber(db.invoices, year), None, Some(ClientId(db, q.company)), None,
      CompanyLines(WithBatch(db, org, q), org, BatchIds(db, org, q), |q.guests|, unread))
  }

  /** What a committed batch leaves: its guests' rows, and the company's invoice or none. */
  lemma BatchInvoiced(db: Db, org: Id, q: BatchRequest, year: nat, f: BatchFaults, g: InvoiceFaults)
    requires Books(db) && BatchError(db, org, q, f).None?
    ensures var after := AfterCorporate(db, org, q, year, f, g);
      && after.bookings == WithBatch(db, org, q).bookings && after.rooms == db.rooms
      && after.invoices == db.invoices + if Skips(db, org, q, g) then [] else [BatchInvoice(db, org, q, year, g.unread)]
  {
    BatchExtends(db, org, q);
    GuestsAreBilled(db, org, q, f, g.unread);
    NoneReadable(|q.guests|, g.unread);
    CompanyInvoicedIff(WithBatch(db, org, q), org, ClientId(db, q.company), BatchIds(db, org, q), year, g);
  }

  lemma BatchOutcome(db: Db, op: Op)
    requires Books(db) && op.CreateCorporate? && BatchError(db, op.org, op.batch, op.bf).None?
    ensures var after, ids, company := Step(db, op), BatchIds(db, op.org, op.batch), ClientId(db, op.batch.company);
      var inv := BatchInvoice(db, op.org, op.batch, op.year, op.invf.unread);
      && |ids| == |op.batch.guests| > 0 && after.rooms == db.rooms && Joined(db, after, company, op.org, ids)
      && ForGuests(inv, company, op.org, ids, op.invf.unread)
      && after.invoices == db.invoices + if Skips(db, op.org, op.batch, op.invf) then [] else [inv]
  {
    var inv := BatchInvoice(db, op.org, op.batch, op.year, op.invf.unread);
    GuestsJoin(db, op.org, op.batch, op.bf);
    BatchInvoiced(db, op.org, op.batch, op.year, op.bf, op.invf);
    LinesAreForGuests(db, op.org, op.batch, op.bf, op.invf.unread, inv);
  }

  // ---------- one invoice per company ----------

  /** The search for the company's invoice fails unnoticed, there is one, and a second is stored. */
  predicate SecondInvoice(db: Db, op: Op) {
    && op.CreateCorporate? && BatchError(db, op.org, op.batch, op.bf).None?
    && Found(db, op.org, op.batch) && op.invf.lookup && !op.invf.lost
    && !NoneRead(|op.batch.guests|, op.invf.unread)
  }

  lemma KeptAccountsStayOne(before: seq<Invoice>, after: seq<Invoice>)
    requires AccountsKept(before, after) && OnePerCompany(before)
    ensures OnePerCompany(after)
  {
    forall j, k | 0 <= j < k < |after| && after[j].company.Some?
      ensures after[j].company != after[k].company || after[j].org != after[k].org
    {
      assert SameAccount(before[j], after[j]);
      assert k < |before| ==> SameAccount(before[k], after[k]);
    }
  }

  lemma OneMoreCompanyInvoice(invs: seq<Invoice>, inv: Invoice, company: Id, org: Id)
    requires OnePerCompany(invs) && inv.company == Some(company) && inv.org == org
    ensures OnePerCompany(invs + [inv]) <==> FindCompany(invs, company, org).None?
  {
    var k, all := FindCompany(invs, company, org), invs + [inv];
    if k.Some? { assert all[k.value].company == all[|invs|].company && all[k.value].org == all[|invs|].org; }
  }

  lemma BatchOneIff(db: Db, op: Op)
    requires Books(db) && OnePerCompany(db.invoices) && op.CreateCorporate?
    ensures OnePerCompany(Step(db, op).invoices) <==> !SecondInvoice(db, op)
  {
    if BatchError(db, op.org, op.batch, op.bf).None? {
      BatchOutcome(db, op);
      OneMoreCompanyInvoice(db.invoices, BatchInvoice(db, op.org, op.batch, op.year, op.invf.unread),
        ClientId(db, op.batch.company), op.org);
    }
  }

  lemma DeleteKeepsOne(db: Db, org: Id, id: Id)
    requires OnePerCompany(db.invoices)
    ensures OnePerCompany(AfterDelete(db, org, id).invoices)
  {
    if DeleteError(db, org, id).None? { DeleteAccounts(db, org, id); }
  }

  lemma StepOnePerCompanyIff(db: Db, op: Op)
    requires Books(db) && OnePerCompany(db.invoices)
    ensures OnePerCompany(Step(db, op).invoices) <==> !SecondInvoice(db, op)
  {
    if op.CreateCorporate? {
      BatchOneIff(db, op);
    } else if op.DeleteBooking? {
      DeleteKeepsOne(db, op.org, op.booking);
    } else {
      StepAccounts(db, op);
      KeptAccountsStayOne(db.invoices, Step(db, op).invoices);
    }
  }

  /** Over every run: no company of an organisation ever has two invoices, if and only if no batch is
      invoiced while the search for the company's invoice fails and there is one. */
  lemma OnePerCompanyOverRuns(db: Db, ops: seq<Op>)
    requires Books(db) && OnePerCompany(db.invoices)
    ensures GoodThroughout(Step, db, ops, (s: Db) => OnePerCompany(s.invoices), |ops|)
      <==> SafeThroughout(Step, db, ops, (s, o) => !SecondInvoice(s, o), |ops|)
  {
    forall s, o | Books(s) ensures Books(Step(s, o)) && (OnePerCompany(s.invoices) ==>
      (OnePerCompany(Step(s, o).invoices) <==> !SecondInvoice(s, o)))
    {
      StepKeepsBooks(s, o);
      if OnePerCompany(s.invoices) { StepOnePerCompanyIff(s, o); }
    }
    GoodIffSafe(Step, db, ops, s => Books(s), (s: Db) => OnePerCompany(s.invoices),
      (s, o) => !SecondInvoice(s, o), |ops|);
  }

  // ---------- a company's stays are billed ----------

  /** A committed batch some of whose guests end up on no invoice. */
  predicate LeavesUnbilled(db: Db, op: Op) {
    && op.CreateCorporate? && BatchError(db, op.org, op.batch, op.bf).None?
    && ((!op.invf.lookup && Found(db, op.org, op.batch)) || op.invf.lost
        || exists i: nat | i < |op.batch.guests| :: i in op.invf.unread)
  }

  lemma KeptAccountsPoint(db: Db, after: Db)
    requires Pointed(db) && AccountsKept(db.invoices, after.invoices) && db.bookings.Keys <= after.bookings.Keys
    ensures Pointed(after)
  {
    forall k, l | 0 <= k < |after.invoices| && l in StayLines(after.invoices[k])
      ensures l.booking.value in after.bookings
    {
      assert k < |db.invoices| ==> SameAccount(db.invoices[k], after.invoices[k]);
    }
  }

  lemma KeptAccountsBill(db: Db, after: Db)
    requires StaysBilled(db) && AccountsKept(db.invoices, after.invoices) && StaysRemain(db.bookings, after.bookings)
    ensures StaysBilled(after)
  {
    forall id | id in after.bookings && after.bookings[id].company.Some? ensures StayBilled(after, id) {
      assert StayBilled(db, id);
      var k :| 0 <= k < |db.invoices| && db.invoices[k].company == db.bookings[id].company
        && db.invoices[k].org == db.bookings[id].org && Bills(db.invoices[k], id);
      assert SameAccount(db.invoices[k], after.invoices[k]) && Bills(after.invoices[k], id);
    }
  }

  lemma DeletePoints(db: Db, org: Id, id: Id)
    requires Pointed(db)
    ensures Pointed(AfterDelete(db, org, id))
  {
    if DeleteError(db, org, id).None? { DeleteAccounts(db, org, id); }
  }

  lemma DeleteBills(db: Db, org: Id, id: Id)
    requires StaysBilled(db)
    ensures StaysBilled(AfterDelete(db, org, id))
  {
    var after := AfterDelete(db, org, id);
    if DeleteError(db, org, id).None? {
      DeleteAccounts(db, org, id);
      forall i | i in after.bookings && after.bookings[i].company.Some? ensures StayBilled(after, i) {
        assert StayBilled(db, i);
        var k :| 0 <= k < |db.invoices| && db.invoices[k].company == db.bookings[i].company
          && db.invoices[k].org == db.bookings[i].org && Bills(db.invoices[k], i);
        var l :| l in StayLines(db.invoices[k]) && l.booking == Some(i);
        assert l in StayLines(after.invoices[k]);
      }
    }
  }

  lemma OneMorePoints(db: Db, after: Db, company: Id, org: Id, ids: seq<Id>, unread: set<nat>, inv: Invoice)
    requires Pointed(db) && Joined(db, after, company, org, ids) && ForGuests(inv, company, org, ids, unread)
    requires after.invoices == db.invoices || after.invoices == db.invoices + [inv]
    ensures Pointed(after)
  {
    forall k, l | 0 <= k < |after.invoices| && l in StayLines(after.invoices[k])
      ensures l.booking.value in after.bookings
    {
      if k < |db.invoices| { assert after.invoices[k] == db.invoices[k]; }
    }
  }

  lemma FreshIsBilledIff(db: Db, after: Db, id: Id, inv: Invoice)
    requires Pointed(db) && id !in db.bookings && id in after.bookings
    requires after.invoices == db.invoices || after.invoices == db.invoices + [inv]
    requires inv.company == after.bookings[id].company && inv.org == after.bookings[id].org
    ensures StayBilled(after, id) <==> after.invoices != db.invoices && Bills(inv, id)
  {
    forall k | 0 <= k < |db.invoices| ensures !Bills(after.invoices[k], id) {
      assert after.invoices[k] == db.invoices[k];
    }
    if after.invoices != db.invoices { assert after.invoices[|db.invoices|] == inv; }
  }

  /** The i-th guest of a batch is billed exactly if there is an invoice and the guest could be read. */
  lemma GuestBilledIff(db: Db, after: Db, company: Id, org: Id, ids: seq<Id>, unread: set<nat>, inv: Invoice, i: nat)
    requires Pointed(db) && Joined(db, after, company, org, ids) && ForGuests(inv, company, org, ids, unread)
    requires after.invoices == db.invoices || after.invoices == db.invoices + [inv]
    requires i < |ids|
    ensures ids[i] in after.bookings
    ensures StayBilled(after, ids[i]) <==> after.invoices != db.invoices && i !in unread
  {
    FreshIsBilledIff(db, after, ids[i], inv);
  }

  lemma OldStayBilled(db: Db, after: Db, id: Id)
    requires id in db.bookings && id in after.bookings && after.bookings[id] == db.bookings[id] && StayBilled(db, id)
    requires db.invoices <= after.invoices
    ensures StayBilled(after, id)
  {
    var k :| 0 <= k < |db.invoices| && db.invoices[k].company == db.bookings[id].company
      && db.invoices[k].org == db.bookings[id].org && Bills(db.invoices[k], id);
    assert after.invoices[k] == db.invoices[k];
  }

  lemma JoinedBilledIff(db: Db, after: Db, company: Id, org: Id, ids: seq<Id>, unread: set<nat>, inv: Invoice)
    requires Pointed(db) && StaysBilled(db)
    requires Joined(db, after, company, org, ids) && ForGuests(inv, company, org, ids, unread)
    requires after.invoices == db.invoices || after.invoices == db.invoices + [inv]
    ensures StaysBilled(after) <==>
      ids == [] || (after.invoices != db.invoices && forall i: nat | i < |ids| :: i !in unread)
  {
    forall i: nat | i < |ids|
      ensures ids[i] in after.bookings && after.bookings[ids[i]].company.Some?
      ensures StayBilled(after, ids[i]) <==> after.invoices != db.invoices && i !in unread
    { GuestBilledIff(db, after, company, org, ids, unread, inv, i); }
    forall id | id in db.bookings && db.bookings[id].company.Some? ensures StayBilled(after, id) {
      OldStayBilled(db, after, id);
    }
    if StaysBilled(after) {
      assert ids != [] ==> StayBilled(after, ids[0]);
      forall i: nat | i < |ids| ensures i !in unread { assert StayBilled(after, ids[i]); }
    } else {
      var id :| id in after.bookings && after.bookings[id].company.Some? && !StayBilled(after, id);
      var i :| 0 <= i < |ids| && ids[i] == id;
      assert after.invoices == db.invoices || i in unread;
    }
  }

  lemma BatchBillsIff(db: Db, op: Op)
    requires Books(db) && Pointed(db) && StaysBilled(db) && op.CreateCorporate?
    ensures StaysBilled(Step(db, op)) <==> !LeavesUnbilled(db, op)
  {
    if BatchError(db, op.org, op.batch, op.bf).None? {
      BatchOutcome(db, op);
      JoinedBilledIff(db, Step(db, op), ClientId(db, op.batch.company), op.org, BatchIds(db, op.org, op.batch),
        op.invf.unread, BatchInvoice(db, op.org, op.batch, op.year, op.invf.unread));
      if NoneRead(|op.batch.guests|, op.invf.unread) { assert 0 in op.invf.unread; }
    }
  }

  lemma StepPoints(db: Db, op: Op)
    requires Books(db) && Pointed(db)
    ensures Pointed(Step(db, op))
  {
    if op.CreateCorporate? {
      if BatchError(db, op.org, op.batch, op.bf).None? {
        BatchOutcome(db, op);
        OneMorePoints(db, Step(db, op), ClientId(db, op.batch.company), op.org, BatchIds(db, op.org, op.batch),
          op.invf.unread, BatchInvoice(db, op.org, op.batch, op.year, op.invf.unread));
      }
    } else if op.DeleteBooking? {
      DeletePoints(db, op.org, op.booking);
    } else {
      StepAccounts(db, op);
      StepRemains(db, op);
      KeptAccountsPoint(db, Step(db, op));
    }
  }

  lemma StepBillsStaysIff(db: Db, op: Op)
    requires Books(db) && Pointed(db) && StaysBilled(db)
    ensures StaysBilled(Step(db, op)) <==> !LeavesUnbilled(db, op)
  {
    if op.CreateCorporate? {
      BatchBillsIff(db, op);
    } else if op.DeleteBooking? {
      DeleteBills(db, op.org, op.booking);
    } else {
      StepAccounts(db, op);
      StepRemains(db, op);
      KeptAccountsBill(db, Step(db, op));
    }
  }

  /** Over every run: every stay of a company has its line on an invoice of that company at every
      moment, if and only if no batch is committed for a company whose invoice is found, or with a
      guest that cannot be read or an invoice that cannot be stored. */
  lemma StaysBilledOverRuns(db: Db, ops: seq<Op>)
    requires Books(db) && Pointed(db) && StaysBilled(db)
    ensures GoodThroughout(Step, db, ops, (s: Db) => StaysBilled(s), |ops|)
      <==> SafeThroughout(Step, db, ops, (s, o) => !LeavesUnbilled(s, o), |ops|)
  {
    forall s, o | Books(s) && Pointed(s) ensures Books(Step(s, o)) && Pointed(Step(s, o))
      && (StaysBilled(s) ==> (StaysBilled(Step(s, o)) <==> !LeavesUnbilled(s, o)))
    {
      StepKeepsBooks(s, o);
      StepPoints(s, o);
      if StaysBilled(s) { StepBillsStaysIff(s, o); }
    }
    GoodIffSafe(Step, db, ops, (s: Db) => Books(s) && Pointed(s), (s: Db) => StaysBilled(s),
      (s, o) => !LeavesUnbilled(s, o), |ops|);
  }

  // ---------- and billed for the nights they have ----------

  ghost predicate OnCompanyBill(db: Db, id: Id) { exists k :: 0 <= k < |db.invoices| && Bills(db.invoices[k], id) }

  /** A priced stay on a company's invoice gets other nights. No call ever reprices such a line. */
  ghost predicate LeavesStayMispriced(db: Db, op: Op) {
    match op
    case UpdateBooking(org, id, e, _, f) =>
      && Unwritten(UpdateError(db.bookings, org, id, e), f.write).None?
      && OnCompanyBill(db, id) && Priced(db, id) && Nights(Edited(db.bookings[id], e)) != Nights(db.bookings[id])
    case OverdueJob(orgs, today, faults) =>
      exists i | i in Overdue(db.bookings, orgs, today) - faults.extend :: OnCompanyBill(db, i) && Priced(db, i)
    case _ => false
  }

  /** Where the lines stay as they are, they are right as long as what is owed does. */
  lemma PricedIffOwedAlike(db: Db, after: Db)
    requires StaysPriced(db) && AccountsKept(db.invoices, after.invoices)
    ensures StaysPriced(after) <==> forall id: Id | OnCompanyBill(db, id) :: Owed(after, id) == Owed(db, id)
  {
    if StaysPriced(after) {
      forall id: Id | OnCompanyBill(db, id) ensures Owed(after, id) == Owed(db, id) {
        var k :| 0 <= k < |db.invoices| && Bills(db.invoices[k], id);
        var l :| l in StayLines(db.invoices[k]) && l.booking == Some(id);
        assert SameAccount(db.invoices[k], after.invoices[k]) && l in StayLines(after.invoices[k]);
      }
    } else {
      var k, l :| 0 <= k < |after.invoices| && l in StayLines(after.invoices[k])
        && l.total != Owed(after, l.booking.value);
      assert SameAccount(db.invoices[k], after.invoices[k]) && l in StayLines(db.invoices[k]);
      assert Bills(db.invoices[k], l.booking.value) && OnCompanyBill(db, l.booking.value);
    }
  }

  lemma EditedOwes(db: Db, org: Id, id: Id, e: Edit, today: int, f: EditFaults, i: Id)
    requires Unwritten(UpdateError(db.bookings, org, id, e), f.write).None?
    ensures Owed(AfterUpdate(db, org, id, e, today, f), i) != Owed(db, i) <==>
      i == id && Priced(db, id) && Nights(Edited(db.bookings[id], e)) != Nights(db.bookings[id])
  {
    var after, b := AfterUpdate(db, org, id, e, today, f), Edited(db.bookings[id], e);
    assert after.bookings == db.bookings[id := b] && after.rooms == db.rooms;
    if i == id && b.room in db.rooms { SameProduct(Nights(b), Nights(db.bookings[id]), db.rooms[b.room].price); }
  }

  lemma EditPricesIff(db: Db, org: Id, id: Id, e: Edit, today: int, f: EditFaults)
    requires Books(db) && StaysPriced(db)
    ensures StaysPriced(AfterUpdate(db, org, id, e, today, f)) <==>
      !LeavesStayMispriced(db, UpdateBooking(org, id, e, today, f))
  {
    if Unwritten(UpdateError(db.bookings, org, id, e), f.write).None? {
      var after := AfterUpdate(db, org, id, e, today, f);
      UpdateAccounts(db, org, id, e, today, f);
      PricedIffOwedAlike(db, after);
      forall i: Id ensures Owed(after, i) != Owed(db, i) <==>
        i == id && Priced(db, id) && Nights(Edited(db.bookings[id], e)) != Nights(db.bookings[id])
      { EditedOwes(db, org, id, e, today, f, i); }
    }
  }

  lemma ExtendedOwes(db: Db, orgs: set<Id>, today: int, faults: JobFaults, i: Id)
    requires Books(db) && AllStorable(db.bookings)
    ensures Owed(AfterOverdue(db, orgs, today, faults), i) != Owed(db, i) <==>
      i in Overdue(db.bookings, orgs, today) - faults.extend && Priced(db, i)
  {
    var after := AfterOverdue(db, orgs, today, faults);
    if i in Overdue(db.bookings, orgs, today) - faults.extend {
      LongerCostsMore(Nights(db.bookings[i]), Nights(after.bookings[i]), db.rooms[db.bookings[i].room].price);
    }
  }

  lemma JobPricesIff(db: Db, orgs: set<Id>, today: int, faults: JobFaults)
    requires Books(db) && AllStorable(db.bookings) && StaysPriced(db)
    ensures StaysPriced(AfterOverdue(db, orgs, today, faults)) <==>
      !LeavesStayMispriced(db, OverdueJob(orgs, today, faults))
  {
    JobAccounts(db, orgs, today, faults);
    PricedIffOwedAlike(db, AfterOverdue(db, orgs, today, faults));
    forall i: Id ensures Owed(AfterOverdue(db, orgs, today, faults), i) != Owed(db, i) <==>
      i in Overdue(db.bookings, orgs, today) - faults.extend && Priced(db, i)
    { ExtendedOwes(db, orgs, today, faults, i); }
  }

  lemma DeletePrices(db: Db, org: Id, id: Id)
    requires StaysPriced(db)
    ensures StaysPriced(AfterDelete(db, org, id))
  {
    if DeleteError(db, org, id).None? {
      DeleteAccounts(db, org, id);
      var after := AfterDelete(db, org, id);
      forall k, l | 0 <= k < |after.invoices| && l in StayLines(after.invoices[k])
        ensures l.total == Owed(after, l.booking.value)
      {
        assert l in StayLines(db.invoices[k]);
      }
    }
  }

  lemma GuestOwes(db: Db, batch: Db, guest: GuestRequest, id: Id, l: Line)
    requires BillsGuest(db, guest, id, l) && batch.rooms == db.rooms && id in batch.bookings
    requires batch.bookings[id].room == guest.room
    requires batch.bookings[id].checkIn == guest.checkIn && batch.bookings[id].checkOut == guest.checkOut
    ensures l.total == Owed(batch, id)
  {}

  lemma NthGuestOwes(db: Db, org: Id, q: BatchRequest, f: BatchFaults, i: nat, l: Line)
    requires Books(db) && BatchError(db, org, q, f).None? && i < |q.guests|
    ensures |BatchIds(db, org, q)| == |q.guests|
    ensures BillsGuest(db, q.guests[i], BatchIds(db, org, q)[i], l) ==>
      l.total == Owed(WithBatch(db, org, q), BatchIds(db, org, q)[i])
  {
    GuestsStand(db, org, q, f);
    assert WithBatch(db, org, q).rooms == db.rooms by { BatchExtends(db, org, q); }
    if BillsGuest(db, q.guests[i], BatchIds(db, org, q)[i], l) {
      GuestOwes(db, WithBatch(db, org, q), q.guests[i], BatchIds(db, org, q)[i], l);
    }
  }

  /** The lines of a batch's invoice charge what its guests owe. */
  lemma GuestsArePriced(db: Db, org: Id, q: BatchRequest, f: BatchFaults, unread: set<nat>, inv: Invoice)
    requires Books(db) && BatchError(db, org, q, f).None?
    requires inv.lines == CompanyLines(WithBatch(db, org, q), org, BatchIds(db, org, q), |q.guests|, unread)
    ensures forall l | l in StayLines(inv) :: l.total == Owed(WithBatch(db, org, q), l.booking.value)
  {
    forall l | l in StayLines(inv) ensures l.total == Owed(WithBatch(db, org, q), l.booking.value) {
      var j :| 0 <= j < |inv.lines| && inv.lines[j] == l;
      var i := LineOfGuest(db, org, q, f, unread, inv.lines, j);
      NthGuestOwes(db, org, q, f, i, l);
    }
  }

  lemma OneMorePriced(db: Db, after: Db, inv: Invoice)
    requires StaysPriced(db) && Pointed(db) && after.rooms == db.rooms
    requires forall i | i in db.bookings :: i in after.bookings && after.bookings[i] == db.bookings[i]
    requires forall l | l in StayLines(inv) :: l.total == Owed(after, l.booking.value)
    requires after.invoices == db.invoices || after.invoices == db.invoices + [inv]
    ensures StaysPriced(after)
  {
    forall k, l | 0 <= k < |after.invoices| && l in StayLines(after.invoices[k])
      ensures l.total == Owed(after, l.booking.value)
    {
      if k < |db.invoices| { assert after.invoices[k] == db.invoices[k]; }
    }
  }

  lemma BatchPriced(db: Db, org: Id, q: BatchRequest, year: nat, f: BatchFaults, g: InvoiceFaults)
    requires Books(db) && BatchError(db, org, q, f).None?
    ensures forall l | l in StayLines(BatchInvoice(db, org, q, year, g.unread)) ::
      l.total == Owed(AfterCorporate(db, org, q, year, f, g), l.booking.value)
  {
    BatchInvoiced(db, org, q, year, f, g);
    GuestsArePriced(db, org, q, f, g.unread, BatchInvoice(db, org, q, year, g.unread));
    BatchExtends(db, org, q);
  }

  lemma BatchPrices(db: Db, op: Op)
    requires Books(db) && Pointed(db) && StaysPriced(db) && op.CreateCorporate?
    ensures StaysPriced(Step(db, op))
  {
    if BatchError(db, op.org, op.batch, op.bf).None? {
      var inv := BatchInvoice(db, op.org, op.batch, op.year, op.invf.unread);
      BatchOutcome(db, op);
      BatchPriced(db, op.org, op.batch, op.year, op.bf, op.invf);
      OneMorePriced(db, Step(db, op), inv);
    }
  }

  /** Neither an edit nor the job, no batch and no deletion. */
  predicate LeavesNights(op: Op) { LeavesAccounts(op) && !op.UpdateBooking? && !op.OverdueJob? }

  lemma OldStaysKept(db: Db, org: Id, q: StayRequest, f: StayFaults)
    requires Numbered(db)
    ensures StaysKept(db.bookings, AfterIndividual(db, org, q, f).bookings)
  {}

  lemma OldGuestsKept(db: Db, profile: Option<Id>, q: StayRequest, f: GuestFaults)
    requires Numbered(db)
    ensures StaysKept(db.bookings, AfterGuest(db, profile, q, f).bookings)
  {}

  lemma StatusKeepsStays(db: Db, org: Id, id: Id, to: Status, year: nat, f: StatusFaults)
    ensures StaysKept(db.bookings, AfterStatus(db, org, id, to, year, f).bookings)
  {
    if Unwritten(StatusError(db.bookings, org, id, to), f.write).None? {
      StatusBookings(db, org, id, to, year, f);
    }
  }

  lemma StepKeepsStays(db: Db, op: Op)
    requires Numbered(db) && LeavesNights(op)
    ensures StaysKept(db.bookings, Step(db, op).bookings)
  {
    if OrderOp(op) {
      OrdersLeaveBookingsAlone(db, op);
    } else {
      match op {
        case CreateIndividual(org, q, f) => OldStaysKept(db, org, q, f);
        case GuestCreate(profile, q, f) => OldGuestsKept(db, profile, q, f);
        case UpdateStatus(org, id, to, year, f) => StatusKeepsStays(db, org, id, to, year, f);
        case _ =>
      }
    }
  }

  lemma RoomsStay(db: Db, op: Op)
    requires LeavesAccounts(op)
    ensures Step(db, op).rooms == db.rooms
  {
    if OrderOp(op) { OrdersLeaveBookingsAlone(db, op); }
  }

  lemma OthersPrice(db: Db, op: Op)
    requires Books(db) && Pointed(db) && StaysPriced(db) && LeavesNights(op)
    ensures StaysPriced(Step(db, op))
  {
    StepAccounts(db, op);
    StepKeepsStays(db, op);
    RoomsStay(db, op);
    PricedIffOwedAlike(db, Step(db, op));
    forall id: Id | OnCompanyBill(db, id) ensures Owed(Step(db, op), id) == Owed(db, id) {
      assert id in db.bookings;
    }
  }

  lemma StepPricesStaysIff(db: Db, op: Op)
    requires Books(db) && AllStorable(db.bookings) && Pointed(db) && StaysPriced(db)
    ensures StaysPriced(Step(db, op)) <==> !LeavesStayMispriced(db, op)
  {
    match op
    case UpdateBooking(org, id, e, today, f) => EditPricesIff(db, org, id, e, today, f);
    case OverdueJob(orgs, today, faults) => JobPricesIff(db, orgs, today, faults);
    case CreateCorporate(_, _, _, _, _) => BatchPrices(db, op);
    case DeleteBooking(org, id) => DeletePrices(db, org, id);
    case _ => OthersPrice(db, op);
  }

  /** Over every run: every line for a stay on a company's invoice charges the nights of that stay at the
      room's price, at every moment, if and only if no edit changes the nights of a priced stay that has
      such a line and the nightly job never extends one. */
  lemma StaysPricedOverRuns(db: Db, ops: seq<Op>)
    requires Books(db) && AllStorable(db.bookings) && Pointed(db) && StaysPriced(db)
    ensures GoodThroughout(Step, db, ops, (s: Db) => StaysPriced(s), |ops|)
      <==> SafeThroughout(Step, db, ops, (s, o) => !LeavesStayMispriced(s, o), |ops|)
  {
    forall s, o | Books(s) && AllStorable(s.bookings) && Pointed(s)
      ensures Books(Step(s, o)) && AllStorable(Step(s, o).bookings) && Pointed(Step(s, o))
      ensures StaysPriced(s) ==> (StaysPriced(Step(s, o)) <==> !LeavesStayMispriced(s, o))
    {
      StepKeepsBooks(s, o);
      StepStorable(s, o);
      StepPoints(s, o);
      if StaysPriced(s) { StepPricesStaysIff(s, o); }
    }
    GoodIffSafe(Step, db, ops, (s: Db) => Books(s) && AllStorable(s.bookings) && Pointed(s),
      (s: Db) => StaysPriced(s), (s, o) => !LeavesStayMispriced(s, o), |ops|);
  }

  // ---------- the smallest cases ----------

  /** A company whose one past stay of three nights at 50.00 is on its invoice. */
  function OneCompanyStay(): Db {
    Lodging(map[3 := Booking(1, 7, 5, Some(2), 100, 103, 1, CheckedIn, false)]).(
      invoices := [NewInvoice(1, 2026, NextNumber([], 2026), None, Some(2), None, [RoomLine(Some(3), 3, 5000)])])
  }

  lemma OneCompanyInvoice()
    ensures InvoiceOk(OneCompanyStay(), OneCompanyStay().invoices[0])
  {
    OneRoomLine(OneCompanyStay().invoices[0].lines[0]);
  }

  lemma OneCompanyStayIsBooked()
    ensures Books(OneCompanyStay()) && AllStorable(OneCompanyStay().bookings)
  {
    var invs := OneCompanyStay().invoices;
    OneCompanyInvoice();
    assert Counted(invs) by { NewNumberCounts([], invs, Format, invs[0]); }
    assert Filed(OneCompanyStay()) && Numbered(OneCompanyStay());
  }

  lemma OneCompanyStayIsBilled()
    ensures var db := OneCompanyStay();
      && Pointed(db) && OnePerCompany(db.invoices) && StaysBilled(db) && StaysPriced(db) && OnCompanyBill(db, 3)
  {
    var db, inv := OneCompanyStay(), OneCompanyStay().invoices[0];
    assert inv.lines[0] in StayLines(inv) && Bills(inv, 3);
    assert StayBilled(db, 3);
  }

  /** One guest for the nights from day 110 to day 112. */
  function NextGuest(): BatchRequest { BatchRequest(Existing(2), [GuestRequest(New(true), 7, 110, 112)]) }

  lemma NextGuestAccepted()
    ensures BatchError(OneCompanyStay(), 1, NextGuest(), BatchFaults(false, 2)).None?
  {
    var db, q := OneCompanyStay(), NextGuest();
    NoFirstError(q.guests, 1, (i: nat, g) => FieldError(g));
    NoFirstError(q.guests, 1, (i: nat, g) => PlaceError(db, 1, g));
    NoFirstError(q.guests, 1, (i: nat, g) => SaveError(db, 1, g, i, 2));
  }

  function NextBatch(lookup: bool): Op {
    CreateCorporate(1, NextGuest(), 2026, BatchFaults(false, 2), InvoiceFaults(lookup, {}, false))
  }

  lemma NextBatchLeaves(lookup: bool)
    ensures LeavesUnbilled(OneCompanyStay(), NextBatch(lookup)) <==> !lookup
    ensures SecondInvoice(OneCompanyStay(), NextBatch(lookup)) <==> lookup
  {
    NextGuestAccepted();
    assert 0 !in NextBatch(lookup).invf.unread;
  }

  /** The company books again, nothing failing: its new stay is billed nowhere. And if the search for
      its invoice fails unnoticed, it has two invoices. */
  lemma NextGuestIsBilledNowhereOrTwice()
    ensures !StaysBilled(Step(OneCompanyStay(), NextBatch(false)))
    ensures !OnePerCompany(Step(OneCompanyStay(), NextBatch(true)).invoices)
  {
    OneCompanyStayIsBooked();
    OneCompanyStayIsBilled();
    NextBatchLeaves(false);
    NextBatchLeaves(true);
    StepBillsStaysIff(OneCompanyStay(), NextBatch(false));
    StepOnePerCompanyIff(OneCompanyStay(), NextBatch(true));
  }

  /** The company's guest leaves a day early, nothing failing: the line still charges three nights. */
  lemma EarlyLeaverPaysInFull()
    ensures var e, f := Edit(None, Some(102), None), EditFaults(false, false);
      && UpdateError(OneCompanyStay().bookings, 1, 3, e).None?
      && !StaysPriced(AfterUpdate(OneCompanyStay(), 1, 3, e, 101, f))
  {
    OneCompanyStayIsBooked();
    OneCompanyStayIsBilled();
    EditPricesIff(OneCompanyStay(), 1, 3, Edit(None, Some(102), None), 101, EditFaults(false, false));
  }
}
