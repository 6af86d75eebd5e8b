/** The booking repository: the booking and join-row operations, each one SaveChanges, and the queries. */
module BookingRepository {
  import opened Wrappers
  import opened Entities
  import opened Store

  /** `GetByIdWithCustomerAsync`: including the required customer is an inner join. */
  function GetByIdWithCustomer(db: DataContext, id: int): (r: Option<Booking>)
    reads db
    ensures r.Some? <==> id in db.bookings && db.bookings[id].customerId in db.customers
    ensures r.Some? ==> r.value == db.bookings[id]
  {
    if id in db.bookings && db.bookings[id].customerId in db.customers then Some(db.bookings[id]) else None
  }

  /** `CreateAsync`: inserts one booking and returns the key the database generated for it. */
  method CreateAsync(db: DataContext, customerId: int, date: Date, time: Time) returns (r: Raised<int>)
    requires db.Valid()
    modifies db
    ensures db.Valid() && NotBelow(db.Next(), old(db.Next()))
    ensures customerId !in old(db.customers) ==>
      r == Threw(DbUpdate(ForeignKeyViolation(Bookings))) && db.State() == old(db.State())
    ensures customerId in old(db.customers) ==>
      && r == Returned(old(db.Next()).booking) && r.value !in old(db.bookings)
      && db.State() == old(db.State()).(bookings := old(db.bookings)[r.value := Booking(r.value, customerId, date, time)])
  {
    r := db.InsertBooking(customerId, date, time);
  }

  /** `DeleteAsync`: false, and nothing changes, when there is no such booking. */
  method DeleteAsync(db: DataContext, id: int) returns (found: bool)
    requires db.Valid()
    modifies db
    ensures db.Valid() && db.Next() == old(db.Next())
    ensures found <==> id in old(db.bookings)
    ensures !found ==> db.State() == old(db.State())
    ensures found ==>
      db.State() == old(db.State()).(bookings := old(db.bookings) - {id},
                                     bookingCleaners := old(db.bookingCleaners) - RowsOf(old(db.bookingCleaners), id))
  {
    if id !in db.bookings {
      return false;
    }
    var _ := db.DeleteBookingRow(id);
    found := true;
  }

  /** `UpdateAsync`: writes every column of the tracked booking back to its row. */
  method UpdateAsync(db: DataContext, booking: Booking) returns (r: Raised<()>)
    requires db.Valid()
    modifies db
    ensures db.Valid() && db.Next() == old(db.Next())
    ensures r.Returned? <==> booking.id in old(db.bookings) && booking.customerId in old(db.customers)
    ensures r.Threw? ==> db.State() == old(db.State())
    ensures r.Returned? ==> db.State() == old(db.State()).(bookings := old(db.bookings)[booking.id := booking])
  {
    r := db.UpdateBookingRow(booking);
  }

  /** `GetBookingIdsByCleanerIdAsync`: the booking ids the cleaner has a join row for. */
  function GetBookingIdsByCleanerId(db: DataContext, cleanerId: int): (r: set<int>)
    reads db
    ensures forall k :: k in r <==> BookingCleaner(k, cleanerId) in db.bookingCleaners
  {
    set bc | bc in db.bookingCleaners && bc.cleanerId == cleanerId :: bc.bookingId
  }

  /**
   * `GetByCleanerIdWithCustomerAndAddressAsync`: the bookings whose id the cleaner has a join row for,
   * keyed by their primary key; including the required customer is an inner join.
   */
  function GetByCleanerIdWithCustomerAndAddress(db: DataContext, cleanerId: int): (r: map<int, Booking>)
    reads db
    ensures r.Keys <= db.bookings.Keys
    ensures forall k | k in r :: r[k] == db.bookings[k]
    ensures forall k | k in db.bookings :: k in r <==>
      BookingCleaner(db.bookings[k].id, cleanerId) in db.bookingCleaners && db.bookings[k].customerId in db.customers
  {
    var ids := GetBookingIdsByCleanerId(db, cleanerId);
    map k | k in db.bookings && db.bookings[k].id in ids && db.bookings[k].customerId in db.customers :: db.bookings[k]
  }

  /** In a consistent store the query returns exactly the bookings the cleaner's join rows name. */
  lemma LinkedBookingsExact(db: DataContext, cleanerId: int)
    requires db.Valid()
    ensures GetByCleanerIdWithCustomerAndAddress(db, cleanerId).Keys == GetBookingIdsByCleanerId(db, cleanerId)
  {
    var q := GetByCleanerIdWithCustomerAndAddress(db, cleanerId);
    forall k | k in GetBookingIdsByCleanerId(db, cleanerId) ensures k in q {
      assert BookingCleaner(k, cleanerId) in db.bookingCleaners;
      assert db.bookings[k].id == k;
    }
    forall k | k in q ensures k in GetBookingIdsByCleanerId(db, cleanerId) {
      assert db.bookings[k].id == k;
    }
  }

  /** `CustomerExistsAsync`: some customer row has that id; in a consistent store, the row keyed by it. */
  predicate CustomerExists(db: DataContext, customerId: int): (r: bool)
    reads db
    ensures db.Valid() ==> (r <==> customerId in db.customers)
  {
    exists k | k in db.customers :: db.customers[k].id == customerId
  }

  /** `CleanerExistsAsync`: some employee row has that id (a cleaner is any employee). */
  predicate CleanerExists(db: DataContext, cleanerId: int): (r: bool)
    reads db
    ensures db.Valid() ==> (r <==> cleanerId in db.employees)
  {
    exists k | k in db.employees :: db.employees[k].id == cleanerId
  }

  /**
   * `AddBookingCleanerAsync` on a pair the context does not already track:
   * one save that inserts exactly the pair; the database's composite key
   * refuses a pair that is stored already.
   */
  method AddBookingCleanerAsync(db: DataContext, bookingId: int, cleanerId: int) returns (r: Raised<()>)
    requires db.Valid()
    modifies db
    ensures db.Valid() && db.Next() == old(db.Next())
    ensures BookingCleaner(bookingId, cleanerId) in old(db.bookingCleaners) ==>
      r == Threw(DbUpdate(PrimaryKeyViolation(BookingCleanerTable)))
    ensures r.Returned? <==>
      && BookingCleaner(bookingId, cleanerId) !in old(db.bookingCleaners)
      && bookingId in old(db.bookings) && cleanerId in old(db.employees)
    ensures r.Threw? ==> db.State() == old(db.State())
    ensures r.Returned? ==>
      db.State() == old(db.State()).(bookingCleaners := old(db.bookingCleaners) + {BookingCleaner(bookingId, cleanerId)})
  {
    r := db.SaveBookingCleanerChanges({}, {BookingCleaner(bookingId, cleanerId)});
  }

  /** `RemoveBookingCleanerAsync`: removes only the matching pair; without one it changes nothing. */
  method RemoveBookingCleanerAsync(db: DataContext, bookingId: int, cleanerId: int)
    requires db.Valid()
    modifies db
    ensures db.Valid() && db.Next() == old(db.Next())
    ensures db.State() == old(db.State()).(bookingCleaners := old(db.bookingCleaners) - {BookingCleaner(bookingId, cleanerId)})
  {
    var row := BookingCleaner(bookingId, cleanerId);
    if row in db.bookingCleaners {
      var _ := db.SaveBookingCleanerChanges({row}, {});
    }
  }

  /** `GetBookingCleanersByBookingIdAsync`: the booking's join rows. */
  function GetBookingCleanersByBookingId(db: DataContext, bookingId: int): (r: set<BookingCleaner>)
    reads db
    ensures r <= db.bookingCleaners
    ensures forall bc | bc in db.bookingCleaners :: bc in r <==> bc.bookingId == bookingId
  {
    RowsOf(db.bookingCleaners, bookingId)
  }

  /** `RemoveBookingCleanersAsync`: removes exactly the given rows; one that is gone aborts the save. */
  method RemoveBookingCleanersAsync(db: DataContext, rows: set<BookingCleaner>) returns (r: Raised<()>)
    requires db.Valid()
    modifies db
    ensures db.Valid() && db.Next() == old(db.Next())
    ensures r.Returned? <==> rows <= old(db.bookingCleaners)
    ensures r.Threw? ==> r.ex == DbConcurrency && db.State() == old(db.State())
    ensures r.Returned? ==> db.State() == old(db.State()).(bookingCleaners := old(db.bookingCleaners) - rows)
  {
    r := db.SaveBookingCleanerChanges(rows, {});
  }
}
