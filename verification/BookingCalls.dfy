/** What the booking calls promise their callers, column by column: which requests are accepted, and
    what is then in the tables. */
module BookingCalls {
  import opened Prelude
  import opened Schema
  import opened Reservations
  import opened Billing
  import opened LodgeSteps
  import opened BookingRuns
  import opened Runs

  /** Somebody else holds the room on one of these nights. */
  predicate Taken(bs: Bookings, room: Id, checkIn: int, checkOut: int, but: Option<Id>) {
    exists i | i in bs && but != Some(i) ::
      && bs[i].room == room && (bs[i].status == Pending || bs[i].status == Confirmed || bs[i].status == CheckedIn)
      && bs[i].checkIn < checkOut && checkIn < bs[i].checkOut
  }

  /** All rows but `id` are what they were, and none is added. */
  ghost predicate OnlyRow(before: Bookings, after: Bookings, id: Id) {
    after.Keys == before.Keys && forall i | i in before && i != id :: after[i] == before[i]
  }

  /** One row more, under an id not used before. */
  ghost predicate OneRowMore(before: Bookings, after: Bookings, id: Id) {
    && id !in before && after.Keys == before.Keys + {id}
    && forall i | i in before :: after[i] == before[i]
  }

  // ---------- new stays ----------

  lemma FreeIffNotTaken(bs: Bookings, room: Id, checkIn: int, checkOut: int, but: Option<Id>)
    ensures RoomAvailable(bs, room, checkIn, checkOut, but) <==> !Taken(bs, room, checkIn, checkOut, but)
  {}

  lemma StayIsAcceptedIff(db: Db, org: Id, q: StayRequest, f: StayFaults)
    ensures IndividualError(db, org, q, f).None? <==>
      && (match q.client
          case Existing(id) => id in db.individuals && db.individuals[id] == Some(org)
          case New(named) => named && !f.client)
      && q.room != 0 && q.checkIn != 0 && q.checkOut != 0 && q.checkIn < q.checkOut
      && q.room in db.rooms && db.rooms[q.room].org == org && 0 < q.guests <= db.rooms[q.room].capacity
      && !Taken(db.bookings, q.room, q.checkIn, q.checkOut, None) && !f.booking
  {
    FreeIffNotTaken(db.bookings, q.room, q.checkIn, q.checkOut, None);
    DuplicateCheckIsRedundant(WithClient(db, org, q.client), org, ClientId(db, q.client), q);
  }

  /** A refusal names something that is the case. */
  lemma StayRefusalIsTrue(db: Db, org: Id, q: StayRequest, f: StayFaults)
    ensures match IndividualError(db, org, q, f)
      case Some(ClientNotFound) =>
        q.client.Existing? && (q.client.id in db.individuals ==> db.individuals[q.client.id] != Some(org))
      case Some(NameRequired) => q.client == New(false)
      case Some(RoomRequired) => q.room == 0
      case Some(DatesRequired) => q.checkIn == 0 || q.checkOut == 0
      case Some(BadDates) => q.checkOut <= q.checkIn
      case Some(BadGuests) => q.guests <= 0
      case Some(RoomNotFound) => q.room in db.rooms ==> db.rooms[q.room].org != org
      case Some(OverCapacity) => q.room in db.rooms && q.guests > db.rooms[q.room].capacity
      case Some(RoomUnavailable) => Taken(db.bookings, q.room, q.checkIn, q.checkOut, None)
      case Some(Database) => f.client || f.booking
      case Some(_) => false
      case None => true
  {
    FreeIffNotTaken(db.bookings, q.room, q.checkIn, q.checkOut, None);
    DuplicateCheckIsRedundant(WithClient(db, org, q.client), org, ClientId(db, q.client), q);
  }

  /** The new stay is the one asked for, pending, and nobody else's row moves. */
  lemma StayIsTheOneAskedFor(db: Db, org: Id, q: StayRequest, f: StayFaults)
    requires Numbered(db) && IndividualError(db, org, q, f).None?
    ensures var after := AfterIndividual(db, org, q, f);
      var id: Id := after.next - 1;
      && OneRowMore(db.bookings, after.bookings, id)
      && after.(bookings := db.bookings, individuals := db.individuals, next := db.next) == db
      && var b := after.bookings[id];
         && b.org == org && b.room == q.room && b.company.None?
         && b.checkIn == q.checkIn && b.checkOut == q.checkOut && b.guests == q.guests
         && b.status == Pending && !b.overstayed
         && b.client in after.individuals && after.individuals[b.client] == Some(org)
         && (q.client.Existing? ==> b.client == q.client.id && after.individuals == db.individuals)
         && (q.client.New? ==>
               b.client !in db.individuals && after.individuals == db.individuals[b.client := Some(org)])
  {}

  lemma GuestStayIsAcceptedIff(db: Db, profile: Option<Id>, q: StayRequest, f: GuestFaults)
    ensures GuestError(db, profile, q, f).None? <==>
      && profile.Some? && profile.value in db.individuals && q.checkIn < q.checkOut
      && q.room in db.rooms && 0 < q.guests <= db.rooms[q.room].capacity
      && !Taken(db.bookings, q.room, q.checkIn, q.checkOut, None) && !f.booking
  {
    FreeIffNotTaken(db.bookings, q.room, q.checkIn, q.checkOut, None);
  }

  /** The same for a guest: the stay is in the room's organisation, and so, if that could be noted, is
      the guest from then on. */
  lemma GuestStayIsTheOneAskedFor(db: Db, profile: Option<Id>, q: StayRequest, f: GuestFaults)
    requires Numbered(db) && GuestError(db, profile, q, f).None?
    ensures var after := AfterGuest(db, profile, q, f);
      var id: Id := after.next - 1;
      && OneRowMore(db.bookings, after.bookings, id)
      && after.(bookings := db.bookings, individuals := db.individuals, next := db.next) == db
      && var b := after.bookings[id];
         && b.org == db.rooms[q.room].org && b.room == q.room && b.company.None? && b.client == profile.value
         && b.checkIn == q.checkIn && b.checkOut == q.checkOut && b.guests == q.guests
         && b.status == Pending && !b.overstayed
         && after.individuals.Keys == db.individuals.Keys
         && (forall c | c in db.individuals && c != profile.value :: after.individuals[c] == db.individuals[c])
         && after.individuals[profile.value] == (if f.stamp then db.individuals[profile.value] else Some(b.org))
  {}

  /** What is asked of one guest of a batch. */
  predicate GuestAdmitted(db: Db, org: Id, g: GuestRequest) {
    && g.room != 0 && g.checkIn != 0 && g.checkOut != 0 && g.checkIn < g.checkOut
    && g.room in db.rooms && db.rooms[g.room].org == org && db.rooms[g.room].capacity >= 1
    && !Taken(db.bookings, g.room, g.checkIn, g.checkOut, None)
    && match g.client
       case Existing(id) => id in db.individuals && db.individuals[id] == Some(org)
       case New(named) => named
  }

  lemma GuestAdmittedMeans(db: Db, org: Id, g: GuestRequest, i: nat, at: nat)
    requires i != at
    ensures GuestAdmitted(db, org, g) <==>
      FieldError(g).None? && PlaceError(db, org, g).None? && SaveError(db, org, g, i, at).None?
  {
    FreeIffNotTaken(db.bookings, g.room, g.checkIn, g.checkOut, None);
  }

  lemma FirstErrorsMean(db: Db, org: Id, gs: seq<GuestRequest>, at: nat)
    ensures BatchFields(gs, |gs|).None? <==> forall k: nat | k < |gs| :: FieldError(gs[k]).None?
    ensures BatchPlaces(db, org, gs, |gs|).None? <==> forall k: nat | k < |gs| :: PlaceError(db, org, gs[k]).None?
    ensures BatchSaves(db, org, gs, |gs|, at).None? <==>
      forall k: nat | k < |gs| :: SaveError(db, org, gs[k], k, at).None?
  {
    NoFirstError(gs, |gs|, (i: nat, g) => FieldError(g));
    NoFirstError(gs, |gs|, (i: nat, g) => PlaceError(db, org, g));
    NoFirstError(gs, |gs|, (i: nat, g) => SaveError(db, org, g, i, at));
  }

  lemma BatchIsAcceptedIff(db: Db, org: Id, q: BatchRequest, f: BatchFaults)
    ensures BatchError(db, org, q, f).None? <==>
      && q.guests != [] && f.at > |q.guests|
      && (match q.company
          case Existing(id) => id in db.companies && db.companies[id] == org
          case New(named) => named && !f.company)
      && forall k: nat | k < |q.guests| :: GuestAdmitted(db, org, q.guests[k])
  {
    FirstErrorsMean(db, org, q.guests, f.at);
    forall k: nat | k < |q.guests| && k != f.at ensures GuestAdmitted(db, org, q.guests[k]) <==>
      FieldError(q.guests[k]).None? && PlaceError(db, org, q.guests[k]).None?
      && SaveError(db, org, q.guests[k], k, f.at).None?
    { GuestAdmittedMeans(db, org, q.guests[k], k, f.at); }
    if f.at < |q.guests| { assert SaveError(db, org, q.guests[f.at], f.at, f.at).Some?; }
  }

  /** A committed batch is for a company that is known: the one named, or a new one of the organisation. */
  lemma BatchKnowsItsCompany(db: Db, org: Id, q: BatchRequest, f: BatchFaults)
    requires BatchError(db, org, q, f).None?
    ensures var after := AfterBatch(db, org, q, f);
      && after.rooms == db.rooms && after.menu == db.menu && after.orders == db.orders
      && after.items == db.items && after.invoices == db.invoices
      && match q.company
         case Existing(id) =>
           after.companies == db.companies && ClientId(db, q.company) == id && db.companies[id] == org
         case New(_) =>
           after.companies == db.companies[db.next := org] && ClientId(db, q.company) == db.next
  {
    OnlyNewRows(WithCompany(db, org, q.company), org, ClientId(db, q.company), q.guests, |q.guests|);
    BatchIsAcceptedIff(db, org, q, f);
  }

  // ---------- edits and deletions ----------

  lemma EditIsAcceptedIff(bs: Bookings, org: Id, id: Id, e: Edit)
    ensures UpdateError(bs, org, id, e).None? <==>
      && id in bs && bs[id].org == org
      && (bs[id].status == Pending || bs[id].status == Confirmed || bs[id].status == CheckedIn)
      && var checkIn := if e.checkIn.Some? then e.checkIn.value else bs[id].checkIn;
         var checkOut := if e.checkOut.Some? then e.checkOut.value else bs[id].checkOut;
         && checkIn < checkOut && (if e.guests.Some? then e.guests.value else bs[id].guests) > 0
         && !Taken(bs, bs[id].room, checkIn, checkOut, Some(id))
  {
    if id in bs {
      var b := Edited(bs[id], e);
      FreeIffNotTaken(bs, b.room, b.checkIn, b.checkOut, Some(id));
    }
  }

  lemma EditRefusalIsTrue(bs: Bookings, org: Id, id: Id, e: Edit)
    ensures match UpdateError(bs, org, id, e)
      case Some(BookingNotFound) => id in bs ==> bs[id].org != org
      case Some(NotEditable) => id in bs && (bs[id].status == CheckedOut || bs[id].status == Cancelled)
      case Some(BadDates) => id in bs && Edited(bs[id], e).checkOut <= Edited(bs[id], e).checkIn
      case Some(BadGuests) => id in bs && Edited(bs[id], e).guests <= 0
      case Some(RoomUnavailable) => id in bs
        && Taken(bs, bs[id].room, Edited(bs[id], e).checkIn, Edited(bs[id], e).checkOut, Some(id))
      case Some(_) => false
      case None => true
  {
    if id in bs {
      var b := Edited(bs[id], e);
      FreeIffNotTaken(bs, b.room, b.checkIn, b.checkOut, Some(id));
    }
  }

  /** An accepted edit writes what it names into its row, and nothing else into any; invoices are looked at
      only for new dates. */
  lemma EditIsTheOneAskedFor(db: Db, org: Id, id: Id, e: Edit, today: int, f: EditFaults)
    ensures var after := AfterUpdate(db, org, id, e, today, f);
      if UpdateError(db.bookings, org, id, e).Some? || f.write then after == db
      else
        && OnlyRow(db.bookings, after.bookings, id)
        && after.(bookings := db.bookings, invoices := db.invoices) == db
        && (e.checkIn.None? && e.checkOut.None? ==> after.invoices == db.invoices)
        && var was, now := db.bookings[id], after.bookings[id];
           && now.checkIn == (if e.checkIn.Some? then e.checkIn.value else was.checkIn)
           && now.checkOut == (if e.checkOut.Some? then e.checkOut.value else was.checkOut)
           && now.guests == (if e.guests.Some? then e.guests.value else was.guests)
           && now.(checkIn := was.checkIn, checkOut := was.checkOut, guests := was.guests) == was
  {
    var after := AfterUpdate(db, org, id, e, today, f);
    if UpdateError(db.bookings, org, id, e).None? && !f.write {
      assert after.bookings == db.bookings[id := Edited(db.bookings[id], e)];
    }
  }

  lemma DeleteIsAcceptedIff(db: Db, org: Id, id: Id)
    ensures DeleteError(db, org, id).None? <==>
      && id in db.bookings && db.bookings[id].org == org && db.bookings[id].status != CheckedIn
      && forall k | 0 <= k < |db.invoices| :: db.invoices[k].booking != Some(id)
  {
    if k :| 0 <= k < |db.invoices| && db.invoices[k].booking == Some(id) { assert db.invoices[k] in db.invoices; }
  }

  /** A deleted booking is gone from the table, and from the orders and lines that named it. */
  lemma DeletedIsForgotten(db: Db, org: Id, id: Id)
    requires DeleteError(db, org, id).None?
    ensures var after := AfterDelete(db, org, id);
      && after.bookings.Keys == db.bookings.Keys - {id}
      && (forall i | i in after.bookings :: after.bookings[i] == db.bookings[i])
      && |after.orders| == |db.orders| && |after.invoices| == |db.invoices|
      && (forall k | 0 <= k < |db.orders| :: after.orders[k] == db.orders[k].(booking :=
            if db.orders[k].booking == Some(id) then None else db.orders[k].booking))
      && (forall k | 0 <= k < |db.invoices| :: |after.invoices[k].lines| == |db.invoices[k].lines|
            && after.invoices[k] == db.invoices[k].(lines := after.invoices[k].lines))
      && (forall k, j | 0 <= k < |db.invoices| && 0 <= j < |db.invoices[k].lines| ::
            var was := db.invoices[k].lines[j];
            after.invoices[k].lines[j] == was.(booking := if was.booking == Some(id) then None else was.booking))
  {}

  // ---------- status changes ----------

  /** The five changes of status a member of staff can make. */
  predicate Lawful(from: Status, to: Status) {
    || (from == Pending && to == Confirmed)
    || (from == Confirmed && to == CheckedIn)
    || (from == CheckedIn && to == CheckedOut)
    || (from == Pending && to == Cancelled)
    || (from == Confirmed && to == Cancelled)
  }

  lemma StatusIsAcceptedIff(bs: Bookings, org: Id, id: Id, to: Status)
    ensures StatusError(bs, org, id, to).None? <==> id in bs && bs[id].org == org && Lawful(bs[id].status, to)
  {}

  /** A status change that is lawful and can be written is made, on that row and in that column only, and
      no invoice moves unless an individual stay is confirmed; any other leaves everything as it was. */
  lemma StatusIsTheOneAskedFor(db: Db, org: Id, id: Id, to: Status, year: nat, f: StatusFaults)
    ensures var after := AfterStatus(db, org, id, to, year, f);
      if id in db.bookings && db.bookings[id].org == org && Lawful(db.bookings[id].status, to) && !f.write then
        && OnlyRow(db.bookings, after.bookings, id)
        && after.bookings[id].status == to
        && after.bookings[id].(status := db.bookings[id].status) == db.bookings[id]
        && after.(bookings := db.bookings, invoices := db.invoices) == db
        && (to != Confirmed || db.bookings[id].company.Some? ==> after.invoices == db.invoices)
      else after == db
  {
    StatusIsAcceptedIff(db.bookings, org, id, to);
    if Unwritten(StatusError(db.bookings, org, id, to), f.write).None? {
      assert AfterStatus(db, org, id, to, year, f).bookings == Restated(db.bookings, id, to);
    }
  }

  /** The guest's own cancellation: theirs, not begun, and in the organisation of its room. */
  lemma CancelIsAcceptedIff(db: Db, client: Id, id: Id)
    ensures CancelError(db, client, id).None? <==>
      && id in db.bookings && db.bookings[id].client == client
      && (db.bookings[id].status == Pending || db.bookings[id].status == Confirmed)
      && db.bookings[id].org == (if db.bookings[id].room in db.rooms then db.rooms[db.bookings[id].room].org else 0)
    ensures CancelError(db, client, id) == Some(Forbidden) <==>
      id in db.bookings && db.bookings[id].client != client
  {}

  lemma CancelIsTheOneAskedFor(db: Db, client: Id, id: Id)
    ensures var after := AfterCancel(db, client, id);
      if CancelError(db, client, id).Some? then after == db
      else
        && after == db.(bookings := after.bookings) && OnlyRow(db.bookings, after.bookings, id)
        && after.bookings[id].status == Cancelled
        && after.bookings[id].(status := db.bookings[id].status) == db.bookings[id]
  {}

  /** The workflow's verdict: written whatever the status was, if the booking is the organisation's. */
  lemma OutcomeIsWritten(bs: Bookings, org: Id, id: Id, approved: bool)
    ensures var after := OutcomeApplied(bs, org, id, approved);
      if id in bs && bs[id].org == org then
        && OnlyRow(bs, after, id) && (approved ==> after[id].status == Confirmed)
        && (!approved ==> after[id].status == Cancelled) && after[id].(status := bs[id].status) == bs[id]
      else after == bs
  {}

  // ---------- a whole stay ----------


  lemma NightsAreFreeAgain(bs: Bookings, id: Id, to: Status)
    requires Sound(bs) && id in bs
    requires bs[id].status == Pending || bs[id].status == Confirmed || bs[id].status == CheckedIn
    requires to == CheckedOut || to == Cancelled
    ensures !Taken(bs[id := bs[id].(status := to)], bs[id].room, bs[id].checkIn, bs[id].checkOut, None)
  {
    var after := bs[id := bs[id].(status := to)];
    forall i | i in after && i != id ensures !Holds(after[i], bs[id].room, bs[id].checkIn, bs[id].checkOut) {
      assert !Conflict(bs[id], bs[i]);
    }
    FreeIffNotTaken(after, bs[id].room, bs[id].checkIn, bs[id].checkOut, None);
  }

  /** Every pending stay, individual or a company's, can be brought to its end: three calls, each
      accepted, whatever fails about invoices, and it is checked out, nothing else of any booking has
      changed, and its nights are free again. */
  lemma CheckedOutInThree(db: Db, org: Id, id: Id, year: nat, f: InvoiceFaults, g: InvoiceFaults, h: InvoiceFaults)
    requires id in db.bookings && db.bookings[id].org == org && db.bookings[id].status == Pending
    ensures var run := [UpdateStatus(org, id, Confirmed, year, StatusFaults(false, f)),
        UpdateStatus(org, id, CheckedIn, year, StatusFaults(false, g)),
        UpdateStatus(org, id, CheckedOut, year, StatusFaults(false, h))];
      var b := db.bookings[id];
      && StatusError(At(Step, db, run, 0).bookings, org, id, Confirmed).None?
      && StatusError(At(Step, db, run, 1).bookings, org, id, CheckedIn).None?
      && StatusError(At(Step, db, run, 2).bookings, org, id, CheckedOut).None?
      && At(Step, db, run, 3).bookings == db.bookings[id := b.(status := CheckedOut)]
      && (Sound(db.bookings) ==>
            Sound(At(Step, db, run, 3).bookings)
            && !Taken(At(Step, db, run, 3).bookings, b.room, b.checkIn, b.checkOut, None))
  {
    var run := [UpdateStatus(org, id, Confirmed, year, StatusFaults(false, f)),
      UpdateStatus(org, id, CheckedIn, year, StatusFaults(false, g)),
      UpdateStatus(org, id, CheckedOut, year, StatusFaults(false, h))];
    var b := db.bookings[id];
    var s1, s2, s3 := At(Step, db, run, 1), At(Step, db, run, 2), At(Step, db, run, 3);
    assert At(Step, db, run, 0) == db;
    assert s1 == Step(db, run[0]);
    assert s2 == Step(s1, run[1]);
    assert s3 == Step(s2, run[2]);
    StatusMoves(db, org, id, Confirmed, year, f);
    StatusMoves(s1, org, id, CheckedIn, year, g);
    StatusMoves(s2, org, id, CheckedOut, year, h);
    assert s3.bookings == db.bookings[id := b.(status := CheckedOut)];
    if Sound(db.bookings) {
      NightsAreFreeAgain(db.bookings, id, CheckedOut);
      RestatingIsExact(db.bookings, id, CheckedOut);
    }
  }

  lemma StatusMoves(db: Db, org: Id, id: Id, to: Status, year: nat, f: InvoiceFaults)
    requires id in db.bookings && db.bookings[id].org == org && Lawful(db.bookings[id].status, to)
    ensures StatusError(db.bookings, org, id, to).None?
    ensures Step(db, UpdateStatus(org, id, to, year, StatusFaults(false, f))).bookings
      == db.bookings[id := db.bookings[id].(status := to)]
  {
    StatusIsAcceptedIff(db.bookings, org, id, to);
  }

  // ---------- the nightly job ----------

  /** The stays the job is there for, and gets to extend. */
  predicate ToExtend(db: Db, orgs: set<Id>, today: int, f: JobFaults, id: Id) {
    && id in db.bookings && db.bookings[id].status == CheckedIn && db.bookings[id].org in orgs
    && db.bookings[id].checkOut < today && id !in f.extend
  }

  /** The job, row by row: a booking differs afterwards exactly if its guest is in the room past the
      check-out, in a listed organisation, and the extension could be written; it then ends today, is
      marked as overstayed if it was or the mark could be written, and keeps every other column. */
  lemma JobExtendsExactly(db: Db, orgs: set<Id>, today: int, f: JobFaults, id: Id)
    requires id in db.bookings
    ensures var after := AfterOverdue(db, orgs, today, f);
      && after.bookings.Keys == db.bookings.Keys && after.(bookings := db.bookings, invoices := db.invoices) == db
      && var was, now := db.bookings[id], after.bookings[id];
         && (now != was <==> ToExtend(db, orgs, today, f, id))
         && (now != was ==>
               now.checkOut == today && (now.overstayed <==> was.overstayed || id !in f.mark)
               && now.(checkOut := was.checkOut, overstayed := was.overstayed) == was)
  {}

  /** Its own invoice falls due today exactly if that could be written too; no other invoice, and no
      other column of any, is touched. */
  lemma JobRedatesExactly(db: Db, orgs: set<Id>, today: int, f: JobFaults, k: nat)
    requires k < |db.invoices|
    ensures var after, was := AfterOverdue(db, orgs, today, f), db.invoices[k];
      && |after.invoices| == |db.invoices|
      && after.invoices[k].(due := was.due) == was
      && after.invoices[k].due ==
           if was.booking.Some? && ToExtend(db, orgs, today, f, was.booking.value) && was.booking.value !in f.due
                && db.bookings[was.booking.value].org == was.org
           then Some(today) else was.due
  {}

  /** After a night on which every extension went through, no guest of a listed organisation is in a
      room past the check-out. */
  lemma NobodyIsOverdue(db: Db, orgs: set<Id>, today: int, f: JobFaults, id: Id)
    requires f.extend == {} && id in db.bookings
    ensures var after := AfterOverdue(db, orgs, today, f).bookings;
      id in after && (after[id].status == CheckedIn && after[id].org in orgs ==> after[id].checkOut >= today)
  {
    JobExtendsExactly(db, orgs, today, f, id);
  }

  /** The ordinary night: a guest who should have left yesterday. */
  lemma LeftYesterday()
    ensures var db := Lodging(map[3 := OneNighter(5, 100, 104, CheckedIn)]);
      AfterOverdue(db, {1}, 105, JobFaults({}, {}, {})).bookings[3]
        == OneNighter(5, 100, 105, CheckedIn).(overstayed := true)
  {
    JobExtendsExactly(Lodging(map[3 := OneNighter(5, 100, 104, CheckedIn)]), {1}, 105, JobFaults({}, {}, {}), 3);
  }

  // ---------- search ----------

  /** The rooms offered are those that are flagged, match, and are free. */
  lemma SearchFindsExactly(db: Db, org: Id, branch: Option<Id>, checkIn: int, checkOut: int, kind: string, r: Id)
    ensures r in Listed(db, org, branch, checkIn, checkOut, kind) <==>
      && r in db.rooms && db.rooms[r].available && db.rooms[r].org == org
      && (branch.Some? ==> db.rooms[r].branch == branch) && (kind != "" ==> db.rooms[r].kind == kind)
      && !Taken(db.bookings, r, checkIn, checkOut, None)
  {}
}
