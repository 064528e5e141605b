/** Where the runs begin. */
module Opening {
  import opened Prelude
  import opened Schema
  import opened Reservations
  import opened BillingRuns
  import opened BillingTheorems
  import opened BillAccuracy
  import opened StayCharges
  import opened CompanyBills
  import opened HouseRules

  /** A lodge that has just opened meets what every theorem over its runs asks of the first state. */
  lemma OpenedIsInOrder(rooms: map<Id, Room>, clients: map<Id, Option<Id>>, companies: map<Id, Id>,
                        menu: map<Id, MenuItem>, next: Id)
    requires forall i | i in clients :: i < next
    ensures var db := Opened(rooms, clients, companies, menu, next);
      && Books(db) && Sound(db.bookings) && AllStorable(db.bookings) && Mirrored(db) && AllRight(db)
      && Invoiced(db) && Charged(db) && WithinCapacity(db) && ItemsApart(db)
      && Pointed(db) && OnePerCompany(db.invoices) && StaysBilled(db) && StaysPriced(db)
  {
    OpeningBooks(rooms, clients, companies, menu, next);
  }
}
