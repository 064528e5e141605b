/** The tables of the lodge database that bookings, orders and invoices live in.
    Money is in whole cents, dates are day numbers (day 0 is Go's zero time),
    tax rates are in hundredths of a percent. */
module Schema {
  import opened Prelude

  datatype Status = Pending | Confirmed | CheckedIn | CheckedOut | Cancelled

  datatype Room = Room(org: Id, branch: Option<Id>, kind: string, capacity: int, price: nat, available: bool)

  datatype Booking = Booking(
    org: Id, room: Id, client: Id, company: Option<Id>,
    checkIn: int, checkOut: int, guests: int, status: Status, overstayed: bool)

  datatype MenuItem = MenuItem(org: Id, price: nat)

  datatype Order = Order(org: Id, booking: Option<Id>, open: bool, createdDay: int)

  datatype Item = Item(id: Id, order: nat, quantity: nat, unitPrice: nat, subtotal: nat)

  datatype Line = Line(
    booking: Option<Id>, order: Option<nat>, orderItem: Option<Id>,
    quantity: nat, unitPrice: nat, total: nat)

  datatype Invoice = Invoice(
    org: Id, year: nat, number: string, booking: Option<Id>, company: Option<Id>,
    rate: nat, subtotal: nat, tax: nat, total: nat, due: Option<int>, lines: seq<Line>)

  /** Orders and invoices are never deleted, so their position is their identity.
      Clients, companies, bookings and order items take theirs from `next`. */
  datatype Db = Db(
    rooms: map<Id, Room>,
    individuals: map<Id, Option<Id>>,   // client id -> organisation; None for a guest who has booked nowhere yet
    companies: map<Id, Id>,             // corporate client id -> organisation
    bookings: map<Id, Booking>,
    menu: map<Id, MenuItem>,
    orders: seq<Order>,
    items: seq<Item>,
    invoices: seq<Invoice>,
    next: Id)
}
