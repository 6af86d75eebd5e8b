/**
 * The booking service: create, update and delete of a booking with its
 * cleaner assignments, one repository call (one save) at a time and
 * without a transaction, and the cleaner-scoped listings.
 */
module BookingService {
  import opened Wrappers
  import opened Entities
  import opened Store
  import opened Assignments
  import opened BookingRepository

  /** `TimeOnly.TryParse`: the library parser is the parameter `parse`; a null string never parses. */
  function TryParseTime(parse: string -> Option<Time>, s: Option<string>): (r: Option<Time>)
    ensures s.None? ==> r.None?
    ensures s.Some? ==> r == parse(s.value)
  {
    if s.None? then None else parse(s.value)
  }

  /** The customer's display name: first and last name separated by one space. */
  function FullName(c: Customer): (r: string)
    ensures |r| == |c.firstName| + 1 + |c.lastName|
    ensures r[..|c.firstName|] == c.firstName && r[|c.firstName|] == ' ' && r[|c.firstName| + 1..] == c.lastName
  {
    c.firstName + " " + c.lastName
  }

  /**
   * The cleaner loop of create and update, into a booking that has no join
   * rows: each listed id that names an employee gets its join row, one save
   * each. A saved row stays tracked by the context, so the first id listed a
   * second time makes `Add` throw the change tracker's conflict before any
   * save, and the rows added before it stay.
   */
  method AddCleaners(db: DataContext, bookingId: int, ids: seq<int>) returns (r: Raised<()>)
    requires db.Valid() && bookingId in db.bookings && RowsOf(db.bookingCleaners, bookingId) == {}
    modifies db
    ensures db.Valid() && db.Next() == old(db.Next())
    ensures var added := AddEach(old(db.bookingCleaners), bookingId, ids, old(db.employees.Keys));
      && db.State() == old(db.State()).(bookingCleaners := added.rows)
      && (r.Returned? <==> added.conflict.None?)
      && (r.Threw? ==> r == Threw(TrackingConflict(bookingId, added.conflict.value)))
  {
    ghost var rows0, employees := db.bookingCleaners, db.employees.Keys;
    var tracked: set<BookingCleaner> := {};
    var i := 0;
    while i < |ids|
      invariant 0 <= i <= |ids|
      invariant db.Valid() && db.Next() == old(db.Next()) && bookingId in db.bookings
      invariant AddEach(rows0, bookingId, ids[..i], employees).conflict.None?
      invariant db.State() == old(db.State()).(bookingCleaners := AddEach(rows0, bookingId, ids[..i], employees).rows)
      invariant tracked == RowsOf(db.bookingCleaners, bookingId)
    {
      var c := ids[i];
      assert ids[..i + 1][..i] == ids[..i];
      if CleanerExists(db, c) {
        var row := BookingCleaner(bookingId, c);
        if row in tracked {
          AddEachStops(rows0, bookingId, ids, employees, i + 1);
          return Threw(TrackingConflict(bookingId, c));
        }
        var _ := AddBookingCleanerAsync(db, bookingId, c);
        tracked := tracked + {row};
      }
      i := i + 1;
    }
    assert ids[..i] == ids;
    r := Returned(());
  }

  /**
   * `CreateBookingAsync`: the customer must exist and the time must parse,
   * both checked before anything is written; then the booking is inserted
   * and its cleaners are added. The new id is the identity column's next value.
   */
  method CreateBookingAsync(db: DataContext, parse: string -> Option<Time>, dto: CreateBookingDto)
    returns (r: Raised<int>)
    requires db.Valid()
    modifies db
    ensures db.Valid() && NotBelow(db.Next(), old(db.Next()))
    ensures dto.customerId !in old(db.customers) ==>
      r == Threw(CustomerNotFound(dto.customerId)) && db.State() == old(db.State())
    ensures dto.customerId in old(db.customers) && TryParseTime(parse, dto.time).None? ==>
      r == Threw(InvalidTimeFormat(dto.time)) && db.State() == old(db.State())
    ensures dto.customerId in old(db.customers) && TryParseTime(parse, dto.time).Some? ==>
      var id, ids := old(db.Next()).booking, dto.cleanerIds.GetOr([]);
      var added := AddEach(old(db.bookingCleaners), id, ids, old(db.employees.Keys));
      && id !in old(db.bookings)
      && db.State() == old(db.State()).(
           bookings := old(db.bookings)[id := Booking(id, dto.customerId, dto.date, TryParseTime(parse, dto.time).value)],
           bookingCleaners := added.rows)
      && (r.Returned? <==> NoRepeatedEmployee(ids, old(db.employees.Keys)))
      && (r.Returned? ==> r.value == id
                          && db.bookingCleaners == old(db.bookingCleaners) + Requested(id, ids, old(db.employees.Keys)))
      && (r.Threw? ==> added.conflict.Some? && r == Threw(TrackingConflict(id, added.conflict.value))
                       && old(db.bookingCleaners) <= db.bookingCleaners
                       <= old(db.bookingCleaners) + Requested(id, ids, old(db.employees.Keys)))
  {
    if !CustomerExists(db, dto.customerId) {
      return Threw(CustomerNotFound(dto.customerId));
    }
    var time := TryParseTime(parse, dto.time);
    if time.None? {
      return Threw(InvalidTimeFormat(dto.time));
    }
    var created := CreateAsync(db, dto.customerId, dto.date, time.value);
    var bookingId := created.value;
    ghost var rows0, employees, ids := db.bookingCleaners, db.employees.Keys, dto.cleanerIds.GetOr([]);
    assert RowsOf(rows0, bookingId) == {};
    AddEachFresh(rows0, bookingId, ids, employees);
    AddEachBounds(rows0, bookingId, ids, employees);
    if dto.cleanerIds.Some? && |dto.cleanerIds.value| > 0 {
      var added := AddCleaners(db, bookingId, dto.cleanerIds.value);
      if added.Threw? {
        return Threw(added.ex);
      }
    } else {
      assert Requested(bookingId, ids, employees) == {};
      assert AddEach(rows0, bookingId, ids, employees) == Added(rows0, None);
    }
    r := Returned(bookingId);
  }

  /**
   * `UpdateBookingAsync`: a partial update. A missing booking is false;
   * the customer and time checks come before the first write; a null
   * cleaner list leaves the join rows alone, any other list clears them
   * and adds its employees again.
   */
  method UpdateBookingAsync(db: DataContext, parse: string -> Option<Time>, id: int, dto: BookingUpdateDto)
    returns (r: Raised<bool>)
    requires db.Valid()
    modifies db
    ensures db.Valid() && db.Next() == old(db.Next())
    ensures id !in old(db.bookings) ==> r == Returned(false) && db.State() == old(db.State())
    ensures id in old(db.bookings) && dto.customerId.Some? && dto.customerId.value !in old(db.customers) ==>
      r == Threw(CustomerNotFound(dto.customerId.value)) && db.State() == old(db.State())
    ensures id in old(db.bookings) && (dto.customerId.None? || dto.customerId.value in old(db.customers))
            && !IsNullOrEmpty(dto.time) && parse(dto.time.value).None? ==>
      r == Threw(InvalidTimeFormat(dto.time)) && db.State() == old(db.State())
    ensures id in old(db.bookings) && (dto.customerId.None? || dto.customerId.value in old(db.customers))
            && (IsNullOrEmpty(dto.time) || parse(dto.time.value).Some?) ==>
      var b := old(db.bookings)[id];
      var updated := b.(customerId := dto.customerId.GetOr(b.customerId),
                        date := dto.date.GetOr(b.date),
                        time := if IsNullOrEmpty(dto.time) then b.time else parse(dto.time.value).value);
      var rows, employees := old(db.bookingCleaners), old(db.employees.Keys);
      && db.bookings == old(db.bookings)[id := updated]
      && (dto.cleanerIds.None? ==>
            r == Returned(true) && db.State() == old(db.State()).(bookings := db.bookings))
      && (dto.cleanerIds.Some? ==>
            var ids := dto.cleanerIds.value;
            && db.State() == old(db.State()).(bookings := db.bookings,
                 bookingCleaners := AddEach(rows - RowsOf(rows, id), id, ids, employees).rows)
            && (r.Returned? <==> NoRepeatedEmployee(ids, employees))
            && (r.Returned? ==> r.value && db.bookingCleaners == Replace(rows, id, ids, employees))
            && (r.Threw? ==>
                  var added := AddEach(rows - RowsOf(rows, id), id, ids, employees);
                  added.conflict.Some? && r == Threw(TrackingConflict(id, added.conflict.value))))
  {
    var found := GetByIdWithCustomer(db, id);
    if found.None? {
      return Returned(false);
    }
    var booking := found.value;
    if dto.customerId.Some? {
      if !CustomerExists(db, dto.customerId.value) {
        return Threw(CustomerNotFound(dto.customerId.value));
      }
      booking := booking.(customerId := dto.customerId.value);
    }
    if dto.date.Some? {
      booking := booking.(date := dto.date.value);
    }
    if !IsNullOrEmpty(dto.time) {
      var time := TryParseTime(parse, dto.time);
      if time.None? {
        return Threw(InvalidTimeFormat(dto.time));
      }
      booking := booking.(time := time.value);
    }
    var _ := UpdateAsync(db, booking);
    if dto.cleanerIds.Some? {
      ghost var rows, employees := old(db.bookingCleaners), old(db.employees.Keys);
      var existing := GetBookingCleanersByBookingId(db, id);
      var _ := RemoveBookingCleanersAsync(db, existing);
      assert RowsOf(db.bookingCleaners, id) == {};
      AddEachAfterClearIsReplace(rows, id, dto.cleanerIds.value, employees);
      var added := AddCleaners(db, id, dto.cleanerIds.value);
      if added.Threw? {
        return Threw(added.ex);
      }
    }
    r := Returned(true);
  }

  /** `DeleteBookingAsync`: removes the booking's join rows, then the booking; false when there is none. */
  method DeleteBookingAsync(db: DataContext, id: int) returns (deleted: bool)
    requires db.Valid()
    modifies db
    ensures db.Valid() && db.Next() == old(db.Next())
    ensures deleted <==> id in old(db.bookings)
    ensures !deleted ==> db.State() == old(db.State())
    ensures deleted ==>
      db.State() == old(db.State()).(bookings := old(db.bookings) - {id},
                                     bookingCleaners := old(db.bookingCleaners) - RowsOf(old(db.bookingCleaners), id))
  {
    var rows := GetBookingCleanersByBookingId(db, id);
    if rows != {} {
      var _ := RemoveBookingCleanersAsync(db, rows);
    }
    deleted := DeleteAsync(db, id);
  }

  /** What the cleaner sees of one booking: its id, date and time, and the customer's full name. */
  function CleanerView(b: Booking, c: Customer): (r: CleanerBookingView)
    ensures r.id == b.id && r.date == b.date && r.time == b.time
    ensures |r.customerName| == |c.firstName| + 1 + |c.lastName|
    ensures r.customerName[..|c.firstName|] == c.firstName && r.customerName[|c.firstName|] == ' '
      && r.customerName[|c.firstName| + 1..] == c.lastName
  {
    CleanerBookingView(b.id, b.date, b.time, FullName(c))
  }

  /**
   * `GetCleanerBookingsAsync`: an unknown cleaner is NotFound; otherwise one
   * view per booking the cleaner has a join row for, keyed by booking id.
   */
  function GetCleanerBookings(db: DataContext, cleanerId: int): (r: Raised<map<int, CleanerBookingView>>)
    reads db
    requires db.Valid()
    ensures cleanerId !in db.employees ==> r == Threw(CleanerNotFound(cleanerId))
    ensures cleanerId in db.employees ==>
      && r.Returned?
      && r.value.Keys == GetByCleanerIdWithCustomerAndAddress(db, cleanerId).Keys
      && forall k | k in r.value ::
           && BookingCleaner(db.bookings[k].id, cleanerId) in db.bookingCleaners
           && r.value[k] == CleanerView(db.bookings[k], db.customers[db.bookings[k].customerId])
  {
    if !CleanerExists(db, cleanerId) then Threw(CleanerNotFound(cleanerId))
    else
      var bookings := GetByCleanerIdWithCustomerAndAddress(db, cleanerId);
      Returned(map k | k in bookings :: CleanerView(bookings[k], db.customers[bookings[k].customerId]))
  }

  /** `GetMyBookingsAsync`: the same selection and projection, for the signed-in employee's id. */
  function GetMyBookings(db: DataContext, employeeId: int): (r: Raised<map<int, CleanerBookingView>>)
    reads db
    requires db.Valid()
    ensures employeeId !in db.employees ==> r == Threw(CleanerNotFound(employeeId))
    ensures employeeId in db.employees ==>
      && r.Returned?
      && r.value.Keys == GetByCleanerIdWithCustomerAndAddress(db, employeeId).Keys
      && forall k | k in r.value ::
           && BookingCleaner(db.bookings[k].id, employeeId) in db.bookingCleaners
           && r.value[k] == CleanerView(db.bookings[k], db.customers[db.bookings[k].customerId])
  {
    GetCleanerBookings(db, employeeId)
  }

  /** In a consistent store a cleaner's listing holds exactly the bookings linked to the cleaner by a join row. */
  lemma CleanerBookingsExactlyLinked(db: DataContext, cleanerId: int)
    requires db.Valid() && cleanerId in db.employees
    ensures GetCleanerBookings(db, cleanerId).value.Keys == set bc | bc in db.bookingCleaners && bc.cleanerId == cleanerId :: bc.bookingId
    ensures RowsOfCleaner(db.bookingCleaners, cleanerId) == {} ==> GetCleanerBookings(db, cleanerId).value == map[]
  {
    LinkedBookingsExact(db, cleanerId);
    if RowsOfCleaner(db.bookingCleaners, cleanerId) == {} {
      assert GetBookingIdsByCleanerId(db, cleanerId) == {};
    }
  }
}
