/** The booking table: who holds which room on which nights.
    Every operation is given as the row it refuses or the table it leaves behind;
    the class in Lodge.dfy carries them out statement by statement. */
module Reservations {
  import opened Prelude
  import opened Schema

  type Bookings = map<Id, Booking>

  datatype Error =
    | ClientNotFound | NameRequired | RoomRequired | DatesRequired | BadDates | BadGuests
    | RoomNotFound | OverCapacity | RoomUnavailable | DuplicateClient | RowRejected
    | BookingNotFound | NotEditable | BadTransition | Forbidden | CheckedInCannotGo | StillInvoiced
    | NoGuests | GuestRefused(guest: nat, why: Error) | CompanyNotFound | CompanyNameRequired
    | ProfileRefused | Database

  // ---------- the status machine ----------

  /** models.ValidBookingTransitions. */
  function Transitions(s: Status): seq<Status> {
    match s
    case Pending => [Confirmed, Cancelled]
    case Confirmed => [CheckedIn, Cancelled]
    case CheckedIn => [CheckedOut]
    case CheckedOut => []
    case Cancelled => []
  }

  /** The statuses that hold a room. */
  predicate Active(s: Status) { s == Pending || s == Confirmed || s == CheckedIn }

  /** No edge of the table leads from a released room back to a held one, none re-enters
      `pending`, and the table has no cycle: the rank drops along every edge. */
  function Rank(s: Status): nat {
    match s
    case Pending => 3
    case Confirmed => 2
    case CheckedIn => 1
    case CheckedOut => 0
    case Cancelled => 0
  }

  lemma TransitionsOnlyWindDown(s: Status, t: Status)
    requires t in Transitions(s)
    ensures Active(s) && t != Pending && Rank(t) < Rank(s)
  {}

  // ---------- availability ----------

  /** The WHERE clause of IsRoomAvailable: b holds `room` on a night of [checkIn, checkOut). */
  predicate Holds(b: Booking, room: Id, checkIn: int, checkOut: int) {
    b.room == room && Active(b.status) && b.checkIn < checkOut && b.checkOut > checkIn
  }

  predicate RoomAvailable(bs: Bookings, room: Id, checkIn: int, checkOut: int, exclude: Option<Id>) {
    forall i | i in bs && exclude != Some(i) :: !Holds(bs[i], room, checkIn, checkOut)
  }

  predicate HasActiveBookingForClient(bs: Bookings, client: Id, room: Id, checkIn: int, checkOut: int) {
    exists i | i in bs :: bs[i].client == client && Holds(bs[i], room, checkIn, checkOut)
  }

  /** Two stays that cannot both be honoured. */
  predicate Conflict(a: Booking, b: Booking) {
    Active(a.status) && Holds(b, a.room, a.checkIn, a.checkOut)
  }

  /** What the booking engine is for. */
  ghost predicate Exclusive(bs: Bookings) {
    forall i, j | i in bs && j in bs && i != j :: !Conflict(bs[i], bs[j])
  }

  /** chk_booking_dates and the guests check, enforced by the table itself. */
  predicate Storable(b: Booking) { b.checkIn < b.checkOut && b.guests > 0 }

  ghost predicate Sound(bs: Bookings) {
    (forall i | i in bs :: Storable(bs[i])) && Exclusive(bs)
  }

  /** The stays that occupy a room on one night: the notion `Exclusive` stands for. */
  ghost function Occupants(bs: Bookings, room: Id, night: int): set<Id> {
    set i | i in bs && bs[i].room == room && Active(bs[i].status) && bs[i].checkIn <= night < bs[i].checkOut
  }

  lemma ExclusiveMeansOnePartyPerNight(bs: Bookings)
    requires forall i | i in bs :: Storable(bs[i])
    ensures Exclusive(bs) <==> forall room, night, i, j ::
      i in Occupants(bs, room, night) && j in Occupants(bs, room, night) ==> i == j
  {
    if !Exclusive(bs) {
      var i, j :| i in bs && j in bs && i != j && Conflict(bs[i], bs[j]);
      var night := if bs[i].checkIn < bs[j].checkIn then bs[j].checkIn else bs[i].checkIn;
      assert i in Occupants(bs, bs[i].room, night) && j in Occupants(bs, bs[i].room, night);
    }
  }

  /** The single fact behind every write of one row: replacing (or adding) row `id` keeps the
      table exclusive exactly when the rest was exclusive and the new row finds its room free. */
  lemma PutIsExact(bs: Bookings, id: Id, b: Booking)
    ensures Exclusive(bs[id := b]) <==>
      Exclusive(bs - {id}) && (Active(b.status) ==> RoomAvailable(bs, b.room, b.checkIn, b.checkOut, Some(id)))
  {
    var after := bs[id := b];
    assert forall i :: i in bs - {id} <==> i in bs && i != id;
    if Exclusive(after) {
      forall i, j | i in bs - {id} && j in bs - {id} && i != j
        ensures !Conflict((bs - {id})[i], (bs - {id})[j])
      { assert !Conflict(after[i], after[j]); }
      forall i | Active(b.status) && i in bs && Some(id) != Some(i)
        ensures !Holds(bs[i], b.room, b.checkIn, b.checkOut)
      { assert !Conflict(after[id], after[i]); }
    }
    if Exclusive(bs - {id}) && (Active(b.status) ==> RoomAvailable(bs, b.room, b.checkIn, b.checkOut, Some(id))) {
      forall i, j | i in after && j in after && i != j ensures !Conflict(after[i], after[j]) {
        if i != id && j != id { assert !Conflict((bs - {id})[i], (bs - {id})[j]); }
        if i != id { assert !Holds(bs[i], b.room, b.checkIn, b.checkOut) || !Active(b.status); }
        if j != id { assert !Holds(bs[j], b.room, b.checkIn, b.checkOut) || !Active(b.status); }
      }
    }
  }

  lemma ExclusiveShrinks(bs: Bookings, ids: set<Id>)
    requires Exclusive(bs)
    ensures Exclusive(bs - ids)
  {
    forall i, j | i in bs - ids && j in bs - ids && i != j ensures !Conflict((bs - ids)[i], (bs - ids)[j]) {
      assert !Conflict(bs[i], bs[j]);
    }
  }

  // ---------- single stays ----------

  datatype ClientRef = Existing(id: Id) | New(named: bool)

  datatype StayRequest = StayRequest(client: ClientRef, room: Id, checkIn: int, checkOut: int, guests: int)

  /** Individual client lookup scoped to an organisation. */
  predicate Known(clients: map<Id, Option<Id>>, client: Id, org: Id) {
    client in clients && clients[client] == Some(org)
  }

  /** Which writes of a single booking the database refuses. */
  datatype StayFaults = StayFaults(client: bool, booking: bool)

  function ClientError(db: Db, org: Id, client: ClientRef, refused: bool): Option<Error> {
    match client
    case Existing(id) => if Known(db.individuals, id, org) then None else Some(ClientNotFound)
    case New(named) => if !named then Some(NameRequired) else if refused then Some(Database) else None
  }

  /** A client created on the fly is stored before the rest of the request is looked at. */
  function WithClient(db: Db, org: Id, client: ClientRef): Db {
    if client.New? then db.(individuals := db.individuals[db.next := Some(org)], next := db.next + 1) else db
  }

  function ClientId(db: Db, client: ClientRef): Id { if client.New? then db.next else client.id }

  /** The checks of CreateIndividual after the client is resolved, in their order. */
  function StayError(db: Db, org: Id, client: Id, q: StayRequest): Option<Error> {
    if q.room == 0 then Some(RoomRequired)
    else if q.checkIn == 0 || q.checkOut == 0 then Some(DatesRequired)
    else if q.checkOut <= q.checkIn then Some(BadDates)
    else if q.guests <= 0 then Some(BadGuests)
    else if q.room !in db.rooms || db.rooms[q.room].org != org then Some(RoomNotFound)
    else if q.guests > db.rooms[q.room].capacity then Some(OverCapacity)
    else if !RoomAvailable(db.bookings, q.room, q.checkIn, q.checkOut, None) then Some(RoomUnavailable)
    else if HasActiveBookingForClient(db.bookings, client, q.room, q.checkIn, q.checkOut) then Some(DuplicateClient)
    else None
  }

  function IndividualError(db: Db, org: Id, q: StayRequest, f: StayFaults): Option<Error> {
    var e := ClientError(db, org, q.client, f.client);
    if e.Some? then e
    else
      var later := StayError(WithClient(db, org, q.client), org, ClientId(db, q.client), q);
      if later.None? && f.booking then Some(Database) else later
  }

  function Stay(org: Id, client: Id, company: Option<Id>, q: StayRequest): Booking {
    Booking(org, q.room, client, company, q.checkIn, q.checkOut, q.guests, Pending, false)
  }

  function WithBooking(db: Db, b: Booking): Db {
    db.(bookings := db.bookings[db.next := b], next := db.next + 1)
  }

  function AfterIndividual(db: Db, org: Id, q: StayRequest, f: StayFaults): Db {
    if ClientError(db, org, q.client, f.client).Some? then db
    else
      var staged := WithClient(db, org, q.client);
      if IndividualError(db, org, q, f).Some? then staged
      else WithBooking(staged, Stay(org, ClientId(db, q.client), None, q))
  }

  /** What fails of a guest's own booking: the insert; the organisation noted on the profile after it. */
  datatype GuestFaults = GuestFaults(booking: bool, stamp: bool)

  /** The self-service route: the guest's profile (None when it is not found or cannot be completed),
      the organisation taken from the room, no check for missing dates or a guest count. The count is
      left to the table's own constraint, one of the reasons for which the insert may be refused. */
  function GuestError(db: Db, profile: Option<Id>, q: StayRequest, f: GuestFaults): Option<Error> {
    if profile.None? || profile.value !in db.individuals then Some(ProfileRefused)
    else if q.room !in db.rooms then Some(RoomNotFound)
    else if q.guests > db.rooms[q.room].capacity then Some(OverCapacity)
    else if q.checkOut <= q.checkIn then Some(BadDates)
    else if !RoomAvailable(db.bookings, q.room, q.checkIn, q.checkOut, None) then Some(RoomUnavailable)
    else if q.guests <= 0 || f.booking then Some(RowRejected)
    else None
  }

  function AfterGuest(db: Db, profile: Option<Id>, q: StayRequest, f: GuestFaults): Db {
    if GuestError(db, profile, q, f).Some? then db
    else
      var org := db.rooms[q.room].org;
      var stored := WithBooking(db, Stay(org, profile.value, None, q));
      if f.stamp then stored else stored.(individuals := stored.individuals[profile.value := Some(org)])
  }

  datatype Edit = Edit(checkIn: Option<int>, checkOut: Option<int>, guests: Option<int>)

  function Edited(b: Booking, e: Edit): Booking {
    b.(checkIn := if e.checkIn.Some? then e.checkIn.value else b.checkIn,
       checkOut := if e.checkOut.Some? then e.checkOut.value else b.checkOut,
       guests := if e.guests.Some? then e.guests.value else b.guests)
  }

  predicate InOrg(bs: Bookings, org: Id, id: Id) { id in bs && bs[id].org == org }

  function UpdateError(bs: Bookings, org: Id, id: Id, e: Edit): Option<Error> {
    if !InOrg(bs, org, id) then Some(BookingNotFound)
    else if !Active(bs[id].status) then Some(NotEditable)
    else
      var b := Edited(bs[id], e);
      if b.checkOut <= b.checkIn then Some(BadDates)
      else if b.guests <= 0 then Some(BadGuests)
      else if !RoomAvailable(bs, b.room, b.checkIn, b.checkOut, Some(id)) then Some(RoomUnavailable)
      else None
  }

  function StatusError(bs: Bookings, org: Id, id: Id, to: Status): Option<Error> {
    if !InOrg(bs, org, id) then Some(BookingNotFound)
    else if to !in Transitions(bs[id].status) then Some(BadTransition)
    else None
  }

  /** The guest's own cancellation; the organisation is the room's. */
  function CancelError(db: Db, client: Id, id: Id): Option<Error> {
    if id !in db.bookings then Some(BookingNotFound)
    else if db.bookings[id].client != client then Some(Forbidden)
    else if Cancelled !in Transitions(db.bookings[id].status) then Some(BadTransition)
    else if !InOrg(db.bookings, OrgOfRoom(db, db.bookings[id].room), id) then Some(BookingNotFound)
    else None
  }

  function OrgOfRoom(db: Db, room: Id): Id { if room in db.rooms then db.rooms[room].org else 0 }

  /** Row `id` moved to status `to`, whatever it was before. */
  function Restated(bs: Bookings, id: Id, to: Status): Bookings
    requires id in bs
  { bs[id := bs[id].(status := to)] }

  /** The workflow's write: no transition table is consulted. */
  function OutcomeApplied(bs: Bookings, org: Id, id: Id, approved: bool): Bookings {
    if InOrg(bs, org, id) then Restated(bs, id, if approved then Confirmed else Cancelled) else bs
  }

  /** Adding a stay under an unused id. */
  lemma InsertIsExact(bs: Bookings, id: Id, b: Booking)
    requires id !in bs && Storable(b)
    ensures Sound(bs[id := b]) <==>
      Sound(bs) && (Active(b.status) ==> RoomAvailable(bs, b.room, b.checkIn, b.checkOut, None))
  {
    PutIsExact(bs, id, b);
    assert bs - {id} == bs;
    var after := bs[id := b];
    if Sound(after) {
      forall i | i in bs ensures Storable(bs[i]) { assert Storable(after[i]); }
    }
  }

  lemma AcceptedStayKeepsSound(db: Db, b: Booking)
    requires Sound(db.bookings) && db.next !in db.bookings && Storable(b)
    requires RoomAvailable(db.bookings, b.room, b.checkIn, b.checkOut, None)
    ensures Sound(WithBooking(db, b).bookings)
  {
    InsertIsExact(db.bookings, db.next, b);
  }

  /** Update looks past the booking it edits, and that is exactly what it may do. */
  lemma EditKeepsSound(bs: Bookings, org: Id, id: Id, e: Edit)
    requires Sound(bs) && UpdateError(bs, org, id, e).None?
    ensures Sound(bs[id := Edited(bs[id], e)])
  {
    PutIsExact(bs, id, Edited(bs[id], e));
    ExclusiveShrinks(bs, {id});
  }

  /** Writing a status: harmless unless it revives a stay whose nights were given away. */
  lemma RestatingIsExact(bs: Bookings, id: Id, to: Status)
    requires Sound(bs) && id in bs
    ensures Sound(Restated(bs, id, to)) <==>
      (Active(to) && !Active(bs[id].status) ==>
         RoomAvailable(bs, bs[id].room, bs[id].checkIn, bs[id].checkOut, Some(id)))
  {
    var b := bs[id];
    PutIsExact(bs, id, b.(status := to));
    PutIsExact(bs, id, b);
    assert bs[id := b] == bs;
    ExclusiveShrinks(bs, {id});
  }

  lemma OutcomeIsExact(bs: Bookings, org: Id, id: Id, approved: bool)
    requires Sound(bs)
    ensures Sound(OutcomeApplied(bs, org, id, approved)) <==>
      (approved && InOrg(bs, org, id) && !Active(bs[id].status) ==>
         RoomAvailable(bs, bs[id].room, bs[id].checkIn, bs[id].checkOut, Some(id)))
  {
    if InOrg(bs, org, id) { RestatingIsExact(bs, id, if approved then Confirmed else Cancelled); }
  }

  // ---------- corporate batches ----------

  datatype GuestRequest = GuestRequest(client: ClientRef, room: Id, checkIn: int, checkOut: int)

  datatype BatchRequest = BatchRequest(company: ClientRef, guests: seq<GuestRequest>)

  function AsStay(g: GuestRequest): StayRequest { StayRequest(g.client, g.room, g.checkIn, g.checkOut, 1) }

  function FieldError(g: GuestRequest): Option<Error> {
    if g.room == 0 then Some(RoomRequired)
    else if g.checkIn == 0 || g.checkOut == 0 then Some(DatesRequired)
    else if g.checkOut <= g.checkIn then Some(BadDates)
    else if g.client.New? && !g.client.named then Some(NameRequired)
    else None
  }

  function PlaceError(db: Db, org: Id, g: GuestRequest): Option<Error> {
    if g.room !in db.rooms || db.rooms[g.room].org != org then Some(RoomNotFound)
    else if db.rooms[g.room].capacity < 1 then Some(OverCapacity)
    else if !RoomAvailable(db.bookings, g.room, g.checkIn, g.checkOut, None) then Some(RoomUnavailable)
    else None
  }

  /** What the database refuses of a batch: the new company; the rows of guest `at`, or, if that is
      the number of guests, the commit. */
  datatype BatchFaults = BatchFaults(company: bool, at: nat)

  function SaveError(db: Db, org: Id, g: GuestRequest, i: nat, at: nat): Option<Error> {
    if g.client.Existing? && !Known(db.individuals, g.client.id, org) then Some(ClientNotFound)
    else if i == at then Some(Database)
    else None
  }

  function CompanyError(db: Db, org: Id, company: ClientRef, refused: bool): Option<Error> {
    match company
    case Existing(id) => if id in db.companies && db.companies[id] == org then None else Some(CompanyNotFound)
    case New(named) => if !named then Some(CompanyNameRequired) else if refused then Some(Database) else None
  }

  /** The error of the first guest of gs[..n] that has one. */
  function FirstError(gs: seq<GuestRequest>, n: nat, check: (nat, GuestRequest) -> Option<Error>): Option<Error>
    requires n <= |gs|
  {
    if n == 0 then None
    else
      var earlier := FirstError(gs, n - 1, check);
      if earlier.Some? then earlier
      else
        var e := check(n - 1, gs[n - 1]);
        if e.Some? then Some(GuestRefused(n - 1, e.value)) else None
  }

  lemma {:induction false} NoFirstError(gs: seq<GuestRequest>, n: nat, check: (nat, GuestRequest) -> Option<Error>)
    requires n <= |gs|
    ensures FirstError(gs, n, check).None? <==> forall k | 0 <= k < n :: check(k, gs[k]).None?
  {
    if n > 0 { NoFirstError(gs, n - 1, check); }
  }

  /** Once refused, looking at more guests does not change the answer. */
  lemma {:induction false} FirstErrorSticks(gs: seq<GuestRequest>, m: nat, n: nat, check: (nat,
                                            GuestRequest) -> Option<Error>)
    requires m <= n <= |gs| && FirstError(gs, m, check).Some?
    ensures FirstError(gs, n, check) == FirstError(gs, m, check)
  {
    if m < n { FirstErrorSticks(gs, m, n - 1, check); }
  }

  function BatchFields(gs: seq<GuestRequest>, n: nat): Option<Error>
    requires n <= |gs|
  { FirstError(gs, n, (i: nat, g) => FieldError(g)) }

  function BatchPlaces(db: Db, org: Id, gs: seq<GuestRequest>, n: nat): Option<Error>
    requires n <= |gs|
  { FirstError(gs, n, (i: nat, g) => PlaceError(db, org, g)) }

  function BatchSaves(db: Db, org: Id, gs: seq<GuestRequest>, n: nat, at: nat): Option<Error>
    requires n <= |gs|
  { FirstError(gs, n, (i: nat, g) => SaveError(db, org, g, i, at)) }

  /** The checks before the transaction. */
  function BatchInvalid(db: Db, org: Id, gs: seq<GuestRequest>): Option<Error> {
    if gs == [] then Some(NoGuests)
    else if BatchFields(gs, |gs|).Some? then BatchFields(gs, |gs|)
    else BatchPlaces(db, org, gs, |gs|)
  }

  /** What can roll the transaction back. */
  function BatchRolledBack(db: Db, org: Id, q: BatchRequest, f: BatchFaults): Option<Error> {
    var n := |q.guests|;
    if CompanyError(db, org, q.company, f.company).Some? then CompanyError(db, org, q.company, f.company)
    else if BatchSaves(db, org, q.guests, n, f.at).Some? then BatchSaves(db, org, q.guests, n, f.at)
    else if f.at == n then Some(Database)
    else None
  }

  function BatchError(db: Db, org: Id, q: BatchRequest, f: BatchFaults): Option<Error> {
    var e := BatchInvalid(db, org, q.guests);
    if e.Some? then e else BatchRolledBack(db, org, q, f)
  }

  function WithCompany(db: Db, org: Id, company: ClientRef): Db {
    if company.New? then db.(companies := db.companies[db.next := org], next := db.next + 1) else db
  }

  /** One guest of the batch: a client if need be, then a pending one-person stay. */
  function WithGuest(db: Db, org: Id, company: Id, g: GuestRequest): Db {
    WithBooking(WithClient(db, org, g.client), Stay(org, ClientId(db, g.client), Some(company), AsStay(g)))
  }

  function WithGuests(db: Db, org: Id, company: Id, gs: seq<GuestRequest>, n: nat): Db
    requires n <= |gs|
  {
    if n == 0 then db else WithGuest(WithGuests(db, org, company, gs, n - 1), org, company, gs[n - 1])
  }

  /** The booking ids of the batch, in request order. */
  function GuestIds(db: Db, org: Id, company: Id, gs: seq<GuestRequest>, n: nat): (ids: seq<Id>)
    requires n <= |gs|
    ensures |ids| == n
  {
    if n == 0 then []
    else
      var before := WithGuests(db, org, company, gs, n - 1);
      GuestIds(db, org, company, gs, n - 1) + [WithClient(before, org, gs[n - 1].client).next]
  }

  /** The batch writes clients and bookings and nothing else. */
  lemma {:induction false} OnlyNewRows(db: Db, org: Id, company: Id, gs: seq<GuestRequest>, n: nat)
    requires n <= |gs|
    ensures var after := WithGuests(db, org, company, gs, n);
      after == db.(individuals := after.individuals, bookings := after.bookings, next := after.next)
  {
    if n > 0 { OnlyNewRows(db, org, company, gs, n - 1); }
  }

  function WithBatch(db: Db, org: Id, q: BatchRequest): Db {
    WithGuests(WithCompany(db, org, q.company), org, ClientId(db, q.company), q.guests, |q.guests|)
  }

  function BatchIds(db: Db, org: Id, q: BatchRequest): seq<Id> {
    GuestIds(WithCompany(db, org, q.company), org, ClientId(db, q.company), q.guests, |q.guests|)
  }

  function AfterBatch(db: Db, org: Id, q: BatchRequest, f: BatchFaults): Db {
    if BatchError(db, org, q, f).Some? then db else WithBatch(db, org, q)
  }

  predicate Apart(g: GuestRequest, h: GuestRequest) {
    g.room == h.room ==> g.checkOut <= h.checkIn || h.checkOut <= g.checkIn
  }

  /** The check that is missing: the guests of one request against each other. */
  predicate PairwiseApart(gs: seq<GuestRequest>, n: nat)
    requires n <= |gs|
  { forall i, j | 0 <= i < j < n :: Apart(gs[i], gs[j]) }

  /** Ids in use stay below `next`. */
  ghost predicate Numbered(db: Db) {
    (forall i | i in db.bookings :: i < db.next) && (forall i | i in db.individuals :: i < db.next)
  }

  lemma AvailabilityAfterInsert(bs: Bookings, id: Id, b: Booking, room: Id, checkIn: int, checkOut: int)
    requires id !in bs
    ensures RoomAvailable(bs[id := b], room, checkIn, checkOut, None) <==>
      RoomAvailable(bs, room, checkIn, checkOut, None) && !Holds(b, room, checkIn, checkOut)
  {
    var after := bs[id := b];
    assert after[id] == b && forall i | i in bs :: after[i] == bs[i];
    if RoomAvailable(after, room, checkIn, checkOut, None) {
      forall i | i in bs
        ensures !Holds(bs[i], room, checkIn, checkOut) { assert !Holds(after[i], room, checkIn, checkOut); }
    }
  }

  lemma AvailabilityAfterGuest(db: Db, org: Id, company: Id, g: GuestRequest, h: GuestRequest)
    requires Numbered(db) && g.checkIn < g.checkOut && h.checkIn < h.checkOut
    ensures Numbered(WithGuest(db, org, company, g))
    ensures RoomAvailable(WithGuest(db, org, company, g).bookings, h.room, h.checkIn, h.checkOut, None) <==>
      RoomAvailable(db.bookings, h.room, h.checkIn, h.checkOut, None) && Apart(g, h)
  {
    var b := Stay(org, ClientId(db, g.client), Some(company), AsStay(g));
    AvailabilityAfterInsert(db.bookings, WithClient(db, org, g.client).next, b, h.room, h.checkIn, h.checkOut);
  }

  lemma {:induction false} BatchAvailability(db: Db, org: Id, company: Id, gs: seq<GuestRequest>, n: nat,
                                             h: GuestRequest)
    requires n <= |gs| && Numbered(db) && h.checkIn < h.checkOut
    requires forall k | 0 <= k < n :: gs[k].checkIn < gs[k].checkOut
    ensures Numbered(WithGuests(db, org, company, gs, n))
    ensures RoomAvailable(WithGuests(db, org, company, gs, n).bookings, h.room, h.checkIn, h.checkOut, None) <==>
      RoomAvailable(db.bookings, h.room, h.checkIn, h.checkOut, None) && forall k | 0 <= k < n :: Apart(gs[k], h)
  {
    if n > 0 {
      BatchAvailability(db, org, company, gs, n - 1, h);
      AvailabilityAfterGuest(WithGuests(db, org, company, gs, n - 1), org, company, gs[n - 1], h);
    }
  }

  /** A guest the stored rows have room for. */
  predicate Fits(bs: Bookings, g: GuestRequest) {
    g.checkIn < g.checkOut && RoomAvailable(bs, g.room, g.checkIn, g.checkOut, None)
  }

  lemma GuestIsExact(db: Db, org: Id, company: Id, g: GuestRequest)
    requires Numbered(db) && g.checkIn < g.checkOut
    ensures Sound(WithGuest(db, org, company, g).bookings) <==> Sound(db.bookings) && Fits(db.bookings, g)
  {
    InsertIsExact(db.bookings, WithClient(db, org, g.client).next,
      Stay(org, ClientId(db, g.client), Some(company), AsStay(g)));
  }

  /** From a sound table, the first n guests leave a sound one exactly when they are pairwise apart. */
  lemma {:induction false} BatchIsExact(db: Db, org: Id, company: Id, gs: seq<GuestRequest>, n: nat)
    requires n <= |gs| && Numbered(db) && Sound(db.bookings)
    requires forall k | 0 <= k < n :: Fits(db.bookings, gs[k])
    ensures Sound(WithGuests(db, org, company, gs, n).bookings) <==> PairwiseApart(gs, n)
  {
    if n > 0 {
      var g, before := gs[n - 1], WithGuests(db, org, company, gs, n - 1);
      assert Fits(db.bookings, g);
      BatchIsExact(db, org, company, gs, n - 1);
      assert Numbered(before) && (Fits(before.bookings, g) <==> forall k | 0 <= k < n - 1 :: Apart(gs[k], g)) by {
        BatchAvailability(db, org, company, gs, n - 1, g);
      }
      GuestIsExact(before, org, company, g);
    }
  }

  lemma BatchKeepsSoundIffApart(db: Db, org: Id, q: BatchRequest, f: BatchFaults)
    requires Numbered(db) && Sound(db.bookings)
    ensures Sound(AfterBatch(db, org, q, f).bookings) <==>
      (BatchError(db, org, q, f).None? ==> PairwiseApart(q.guests, |q.guests|))
  {
    if BatchError(db, org, q, f).None? {
      NoFirstError(q.guests, |q.guests|, (i: nat, g) => FieldError(g));
      NoFirstError(q.guests, |q.guests|, (i: nat, g) => PlaceError(db, org, g));
      var db1 := WithCompany(db, org, q.company);
      forall k | 0 <= k < |q.guests| ensures Fits(db1.bookings, q.guests[k]) {
        assert FieldError(q.guests[k]).None? && PlaceError(db, org, q.guests[k]).None?;
      }
      BatchIsExact(db1, org, ClientId(db, q.company), q.guests, |q.guests|);
    }
  }

  /** Guest g's rows: a pending stay for one, tied to the company, for the named client or a new one. */
  ghost predicate Saved(after: Db, org: Id, company: Id, g: GuestRequest, id: Id) {
    && id in after.bookings
    && var b := after.bookings[id];
       && b.org == org && b.room == g.room && b.company == Some(company)
       && b.checkIn == g.checkIn && b.checkOut == g.checkOut && b.guests == 1 && b.status == Pending && !b.overstayed
       && (g.client.Existing? ==> b.client == g.client.id)
       && (g.client.New? ==> b.client + 1 == id && Known(after.individuals, b.client, org))
  }

  ghost predicate Extends(db: Db, after: Db) {
    && db.next <= after.next
    && (forall i | i in db.bookings :: i in after.bookings && after.bookings[i] == db.bookings[i])
    && (forall i | i in db.individuals :: i in after.individuals && after.individuals[i] == db.individuals[i])
    && after.(bookings := db.bookings, individuals := db.individuals, next := db.next) == db
  }

  lemma GuestExtends(db: Db, org: Id, company: Id, g: GuestRequest)
    requires Numbered(db)
    ensures var after, id := WithGuest(db, org, company, g), WithClient(db, org, g.client).next;
      Numbered(after) && Extends(db, after) && Saved(after, org, company, g, id)
      && after.bookings.Keys == db.bookings.Keys + {id} && db.next <= id < after.next
  {}

  /** One pending stay per guest of gs[..n], in request order, under ids not used before; no older
      row touched. */
  ghost predicate Added(db: Db, after: Db, org: Id, company: Id, gs: seq<GuestRequest>, ids: seq<Id>) {
    && Numbered(after) && Extends(db, after)
    && |ids| <= |gs|
    && after.bookings.Keys == db.bookings.Keys + (set i | i in ids)
    && (forall k | 0 <= k < |ids| :: db.next <= ids[k] < after.next && Saved(after, org, company, gs[k], ids[k]))
    && (forall j, k | 0 <= j < k < |ids| :: ids[j] < ids[k])
  }

  lemma ExtendsTwice(db: Db, before: Db, after: Db)
    requires Extends(db, before) && Extends(before, after)
    ensures Extends(db, after)
  {}

  lemma SavedStays(before: Db, after: Db, org: Id, company: Id, g: GuestRequest, id: Id)
    requires Extends(before, after) && Saved(before, org, company, g, id)
    ensures Saved(after, org, company, g, id)
  {}

  lemma KeysOneMore(keys: set<Id>, ids: seq<Id>, id: Id)
    ensures keys + (set i | i in ids) + {id} == keys + (set i | i in ids + [id])
  {}

  lemma AddedOneMore(db: Db, before: Db, after: Db, org: Id, company: Id, gs: seq<GuestRequest>, ids: seq<Id>, id: Id)
    requires Added(db, before, org, company, gs, ids) && |ids| < |gs|
    requires Numbered(after) && Extends(before, after) && Saved(after, org, company, gs[|ids|], id)
    requires after.bookings.Keys == before.bookings.Keys + {id} && before.next <= id < after.next
    ensures Added(db, after, org, company, gs, ids + [id])
  {
    var all := ids + [id];
    KeysOneMore(db.bookings.Keys, ids, id);
    ExtendsTwice(db, before, after);
    forall k | 0 <= k < |all| ensures db.next <= all[k] < after.next && Saved(after, org, company, gs[k], all[k]) {
      if k < |ids| { SavedStays(before, after, org, company, gs[k], ids[k]); }
    }
  }

  /** A committed batch saves exactly its guests. (A refused one leaves every table as it was:
      see AfterBatch.) */
  lemma {:induction false} BatchAddsExactlyItsGuests(db: Db, org: Id, company: Id, gs: seq<GuestRequest>, n: nat)
    requires n <= |gs| && Numbered(db)
    ensures Added(db, WithGuests(db, org, company, gs, n), org, company, gs, GuestIds(db, org, company, gs, n))
  {
    if n > 0 {
      BatchAddsExactlyItsGuests(db, org, company, gs, n - 1);
      var before := WithGuests(db, org, company, gs, n - 1);
      GuestExtends(before, org, company, gs[n - 1]);
      AddedOneMore(db, before, WithGuests(db, org, company, gs, n), org, company, gs,
        GuestIds(db, org, company, gs, n - 1), WithClient(before, org, gs[n - 1].client).next);
    }
  }

  // ---------- the nightly job ----------

  predicate IsOverdue(b: Booking, orgs: set<Id>, today: int) {
    b.status == CheckedIn && b.checkOut < today && b.org in orgs
  }

  /** FindOverdueCheckouts. */
  function Overdue(bs: Bookings, orgs: set<Id>, today: int): set<Id> {
    set i | i in bs && IsOverdue(bs[i], orgs, today)
  }

  /** The stays in `ids` stretched to today; `marked` of them flagged as overstayed. */
  function Stretched(bs: Bookings, ids: set<Id>, marked: set<Id>, today: int): Bookings {
    map i | i in bs ::
      if i in ids then bs[i].(checkOut := today, overstayed := bs[i].overstayed || i in marked) else bs[i]
  }

  /** Someone else is due in an extended room between the old check-out and today. */
  predicate Blocked(bs: Bookings, ids: set<Id>, today: int) {
    exists i, j | i in bs && j in bs :: i in ids && i != j && Active(bs[j].status) && bs[j].room == bs[i].room
      && bs[i].checkOut <= bs[j].checkIn < today
  }

  lemma StretchIsExact(bs: Bookings, ids: set<Id>, marked: set<Id>, orgs: set<Id>, today: int)
    requires Sound(bs) && ids <= Overdue(bs, orgs, today)
    ensures Sound(Stretched(bs, ids, marked, today)) <==> !Blocked(bs, ids, today)
  {
    var after := Stretched(bs, ids, marked, today);
    if Blocked(bs, ids, today) {
      var i, j :| i in bs && j in bs && i in ids && i != j && Active(bs[j].status) && bs[j].room == bs[i].room
        && bs[i].checkOut <= bs[j].checkIn < today;
      assert Conflict(after[i], after[j]);
    } else {
      forall i, j | i in after && j in after && i != j ensures !Conflict(after[i], after[j]) {
        assert !Conflict(bs[i], bs[j]) && !Conflict(bs[j], bs[i]);
      }
    }
  }

  /** Whatever fails, no stay is shortened or moved; and with every write through, tonight's second
      run has nothing left to do. */
  lemma StretchOnlyLengthens(bs: Bookings, ids: set<Id>, marked: set<Id>, orgs: set<Id>, today: int)
    requires (forall i | i in bs :: Storable(bs[i])) && ids <= Overdue(bs, orgs, today)
    ensures var after := Stretched(bs, ids, marked, today);
      && after.Keys == bs.Keys
      && (forall i | i in bs :: Storable(after[i]) && bs[i].checkOut <= after[i].checkOut
            && after[i] == bs[i].(checkOut := after[i].checkOut, overstayed := after[i].overstayed))
      && Overdue(after, orgs, today) == Overdue(bs, orgs, today) - ids
      && (ids == Overdue(bs, orgs, today) ==> Overdue(after, orgs, today) == {})
  {}

  // ---------- search ----------

  predicate Matches(room: Room, org: Id, branch: Option<Id>, kind: string) {
    room.available && room.org == org && (branch.Some? ==> room.branch == branch) && (kind != "" ==> room.kind == kind)
  }

  /** RoomRepository.ListAvailable: flagged rooms of the organisation whose id is not among the
      rooms held on those dates. */
  function Listed(db: Db, org: Id, branch: Option<Id>, checkIn: int, checkOut: int, kind: string): set<Id> {
    var taken := set i | i in db.bookings && Active(db.bookings[i].status)
                           && db.bookings[i].checkIn < checkOut && db.bookings[i].checkOut > checkIn
                       :: db.bookings[i].room;
    set r | r in db.rooms && Matches(db.rooms[r], org, branch, kind) && r !in taken
  }

  /** The list agrees with the booking check, both ways: a listed room is refused for no reason of
      room, dates or duplicate client, and a flagged matching room that is missing is refused. */
  lemma ListedRoomsAreBookable(db: Db, org: Id, branch: Option<Id>, kind: string, q: StayRequest, client: Id)
    requires q.room != 0 && q.checkIn != 0 && q.checkOut != 0 && q.checkIn < q.checkOut && q.guests > 0
    requires q.room in db.rooms && q.guests <= db.rooms[q.room].capacity && Matches(db.rooms[q.room], org, branch, kind)
    ensures StayError(db, org, client, q)
      == if q.room in Listed(db, org, branch, q.checkIn, q.checkOut, kind) then None else Some(RoomUnavailable)
  {}

  /** The duplicate-client check of CreateIndividual can never fire: availability already excludes it. */
  lemma DuplicateCheckIsRedundant(db: Db, org: Id, client: Id, q: StayRequest)
    ensures StayError(db, org, client, q) != Some(DuplicateClient)
  {}
}
