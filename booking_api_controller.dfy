/**
 * The booking API controller: the same booking workflows written inline
 * against the data context. Join rows are staged in the change tracker and
 * saved together; the update runs in one transaction, rolled back by
 * restoring the snapshot taken when it began.
 */
module BookingApiController {
  import opened Wrappers
  import opened Entities
  import opened Store
  import opened Assignments
  import opened BookingRepository
  import BookingService
  import Text

  /** The HTTP responses the actions produce, with the payloads they carry. */
  datatype ActionResult =
    | OkMessage(message: string)                          // 200 { message }
    | OkUpdated(message: string, bookingId: int)          // 200 { message, bookingId }
    | OkBookings(bookings: map<int, MyBookingView>)       // 200 with the listing, keyed by booking id
    | Created(bookingId: int, message: string)            // 201 { bookingId, message }
    | BadRequest(error: string)                           // 400
    | Unauthorized(error: string)                         // 401
    | NotFound(error: string)                             // 404
    | ServerError(error: string)                          // 500

  /**
   * Staging one join row per listed id that names an employee. Adding a
   * row whose key the tracker already holds as added throws before any save.
   */
  method StageCleaners(db: DataContext, bookingId: int, ids: seq<int>) returns (r: Raised<set<BookingCleaner>>)
    ensures var staged := AddEach({}, bookingId, ids, db.employees.Keys);
      && (staged.conflict.None? ==> r == Returned(staged.rows))
      && (staged.conflict.Some? ==> r == Threw(TrackingConflict(bookingId, staged.conflict.value)))
    ensures r.Returned? <==> NoRepeatedEmployee(ids, db.employees.Keys)
    ensures r.Returned? ==> r.value == Requested(bookingId, ids, db.employees.Keys)
  {
    ghost var employees := db.employees.Keys;
    AddEachFresh({}, bookingId, ids, employees);
    var staged: set<BookingCleaner> := {};
    var i := 0;
    while i < |ids|
      invariant 0 <= i <= |ids|
      invariant AddEach({}, bookingId, ids[..i], employees) == Added(staged, None)
    {
      var cleanerId := ids[i];
      assert ids[..i + 1][..i] == ids[..i];
      if cleanerId in db.employees {
        var row := BookingCleaner(bookingId, cleanerId);
        if row in staged {
          AddEachStops({}, bookingId, ids, employees, i + 1);
          return Threw(TrackingConflict(bookingId, cleanerId));
        }
        staged := staged + {row};
      }
      i := i + 1;
    }
    assert ids[..i] == ids;
    r := Returned(staged);
  }

  /**
   * `CreateBooking`: the null body, the unknown customer and the bad time are
   * answered before anything is written; the booking is saved on its own,
   * then its staged join rows in one more save. A tracking conflict while
   * staging is a 500 that leaves the saved booking in place without rows.
   */
  method CreateBooking(db: DataContext, parse: string -> Option<Time>, dto: Option<CreateBookingDto>)
    returns (r: ActionResult)
    requires db.Valid()
    modifies db
    ensures db.Valid() && NotBelow(db.Next(), old(db.Next()))
    ensures dto.None? ==> r == BadRequest("Request body cannot be null") && db.State() == old(db.State())
    ensures dto.Some? && dto.value.customerId !in old(db.customers) ==>
      && r == NotFound("Kund med ID " + Text.IntToString(dto.value.customerId) + " hittades inte")
      && db.State() == old(db.State())
    ensures dto.Some? && dto.value.customerId in old(db.customers)
            && BookingService.TryParseTime(parse, dto.value.time).None? ==>
      && r == BadRequest("Invalid time format: " + dto.value.time.GetOr("") + ". Use HH:mm or HH:mm:ss format")
      && db.State() == old(db.State())
    ensures dto.Some? && dto.value.customerId in old(db.customers)
            && BookingService.TryParseTime(parse, dto.value.time).Some? ==>
      var d, id := dto.value, old(db.Next()).booking;
      var ids, employees := d.cleanerIds.GetOr([]), old(db.employees.Keys);
      var staged := AddEach({}, id, ids, employees);
      && id !in old(db.bookings)
      && db.bookings == old(db.bookings)[id := Booking(id, d.customerId, d.date, BookingService.TryParseTime(parse, d.time).value)]
      && (r.Created? <==> NoRepeatedEmployee(ids, employees))
      && (staged.conflict.None? ==>
            && r == Created(id, "Booking created successfully")
            && db.State() == old(db.State()).(bookings := db.bookings,
                 bookingCleaners := old(db.bookingCleaners) + Requested(id, ids, employees)))
      && (staged.conflict.Some? ==>
            && r == ServerError("An error occurred while creating the booking: "
                                + Message(TrackingConflict(id, staged.conflict.value)))
            && db.State() == old(db.State()).(bookings := db.bookings))
  {
    if dto.None? {
      return BadRequest("Request body cannot be null");
    }
    var d := dto.value;
    if d.customerId !in db.customers {
      return NotFound("Kund med ID " + Text.IntToString(d.customerId) + " hittades inte");
    }
    var time := BookingService.TryParseTime(parse, d.time);
    if time.None? {
      return BadRequest("Invalid time format: " + d.time.GetOr("") + ". Use HH:mm or HH:mm:ss format");
    }
    var inserted := db.InsertBooking(d.customerId, d.date, time.value);
    var id := inserted.value;
    if d.cleanerIds.Some? && |d.cleanerIds.value| > 0 {
      var staged := StageCleaners(db, id, d.cleanerIds.value);
      if staged.Threw? {
        return ServerError("An error occurred while creating the booking: " + Message(staged.ex));
      }
      assert RowsOf(db.bookingCleaners, id) == {};
      var _ := db.SaveBookingCleanerChanges({}, staged.value);
    } else {
      assert Requested(id, d.cleanerIds.GetOr([]), db.employees.Keys) == {};
    }
    r := Created(id, "Booking created successfully");
  }

  /** `DeleteBooking`: the booking's join rows and the booking go in one save. */
  method DeleteBooking(db: DataContext, id: int) returns (r: ActionResult)
    requires db.Valid()
    modifies db
    ensures db.Valid() && db.Next() == old(db.Next())
    ensures id !in old(db.bookings) ==>
      r == NotFound("Bokning med ID " + Text.IntToString(id) + " hittades inte") && db.State() == old(db.State())
    ensures id in old(db.bookings) ==>
      && r == OkMessage("Booking deleted successfully")
      && db.State() == old(db.State()).(bookings := old(db.bookings) - {id},
                                        bookingCleaners := old(db.bookingCleaners) - RowsOf(old(db.bookingCleaners), id))
  {
    if id !in db.bookings {
      return NotFound("Bokning med ID " + Text.IntToString(id) + " hittades inte");
    }
    var rows := RowsOf(db.bookingCleaners, id);
    var _ := db.DeleteBookingWithRows(id, rows);
    r := OkMessage("Booking deleted successfully");
  }

  /**
   * `UpdateBooking`: one transaction around the partial update of the booking
   * and, for a non-null list, the replacement of its join rows. Every early
   * answer and every exception leaves the store as it was.
   */
  method UpdateBooking(db: DataContext, parse: string -> Option<Time>, id: int, dto: Option<BookingUpdateDto>)
    returns (r: ActionResult)
    requires db.Valid()
    modifies db
    ensures db.Valid() && db.Next() == old(db.Next())
    ensures dto.None? ==> r == BadRequest("Booking cannot be null") && db.State() == old(db.State())
    ensures dto.Some? && id !in old(db.bookings) ==>
      r == NotFound("No booking found with id: " + Text.IntToString(id)) && db.State() == old(db.State())
    ensures dto.Some? && id in old(db.bookings)
            && dto.value.customerId.Some? && dto.value.customerId.value !in old(db.customers) ==>
      && r == NotFound("Customer with ID " + Text.IntToString(dto.value.customerId.value) + " not found")
      && db.State() == old(db.State())
    ensures dto.Some? && id in old(db.bookings)
            && (dto.value.customerId.None? || dto.value.customerId.value in old(db.customers))
            && !IsNullOrEmpty(dto.value.time) && parse(dto.value.time.value).None? ==>
      && r == BadRequest("Invalid time format: " + dto.value.time.value + ". Använd format HH:mm eller HH:mm:ss")
      && db.State() == old(db.State())
    ensures dto.Some? && id in old(db.bookings)
            && (dto.value.customerId.None? || dto.value.customerId.value in old(db.customers))
            && (IsNullOrEmpty(dto.value.time) || parse(dto.value.time.value).Some?) ==>
      var d, b := dto.value, old(db.bookings)[id];
      var updated := b.(customerId := d.customerId.GetOr(b.customerId),
                        date := d.date.GetOr(b.date),
                        time := if IsNullOrEmpty(d.time) then b.time else parse(d.time.value).value);
      var rows, employees := old(db.bookingCleaners), old(db.employees.Keys);
      && (d.cleanerIds.None? ==>
            r == OkUpdated("Booking updated", id)
            && db.State() == old(db.State()).(bookings := old(db.bookings)[id := updated]))
      && (d.cleanerIds.Some? ==>
            var ids := d.cleanerIds.value;
            var staged := AddEach({}, id, ids, employees);
            && (r.OkUpdated? <==> NoRepeatedEmployee(ids, employees))
            && (staged.conflict.None? ==>
                  r == OkUpdated("Booking updated", id)
                  && db.State() == old(db.State()).(bookings := old(db.bookings)[id := updated],
                                                    bookingCleaners := Replace(rows, id, ids, employees)))
            && (staged.conflict.Some? ==>
                  r == ServerError("Error updating booking: " + Message(TrackingConflict(id, staged.conflict.value)))
                  && db.State() == old(db.State())))
  {
    if dto.None? {
      return BadRequest("Booking cannot be null");
    }
    var d := dto.value;
    var snapshot := db.State();
    if id !in db.bookings {
      return NotFound("No booking found with id: " + Text.IntToString(id));
    }
    var booking := db.bookings[id];
    if d.customerId.Some? {
      if d.customerId.value !in db.customers {
        return NotFound("Customer with ID " + Text.IntToString(d.customerId.value) + " not found");
      }
      booking := booking.(customerId := db.customers[d.customerId.value].id);
    }
    if d.date.Some? {
      booking := booking.(date := d.date.value);
    }
    if !IsNullOrEmpty(d.time) {
      var time := parse(d.time.value);
      if time.None? {
        return BadRequest("Invalid time format: " + d.time.value + ". Använd format HH:mm eller HH:mm:ss");
      }
      booking := booking.(time := time.value);
    }
    var _ := db.UpdateBookingRow(booking);
    if d.cleanerIds.Some? {
      var existing := RowsOf(db.bookingCleaners, id);
      var staged := StageCleaners(db, id, d.cleanerIds.value);
      if staged.Threw? {
        db.Restore(snapshot);
        return ServerError("Error updating booking: " + Message(staged.ex));
      }
      var _ := db.SaveBookingCleanerChanges(existing, staged.value);
      assert db.bookingCleaners == Replace(old(db.bookingCleaners), id, d.cleanerIds.value, old(db.employees.Keys));
    }
    r := OkUpdated("Booking updated", id);
  }

  /**
   * The index of the first claim `Guid.TryParse` accepts; the parser is the parameter `isGuid`.
   */
  function FirstGuidAt(claims: seq<string>, isGuid: string -> bool): (r: Option<nat>)
    ensures r.Some? ==> r.value < |claims| && isGuid(claims[r.value])
    ensures r.Some? ==> forall j | 0 <= j < r.value :: !isGuid(claims[j])
    ensures r.None? <==> forall j | 0 <= j < |claims| :: !isGuid(claims[j])
    decreases |claims|
  {
    if claims == [] then None
    else if isGuid(claims[0]) then Some(0)
    else
      var rest := FirstGuidAt(claims[1..], isGuid);
      assert forall j | 1 <= j < |claims| :: claims[j] == claims[1..][j - 1];
      if rest.None? then None else Some(rest.value + 1)
  }

  /**
   * `GetCurrentUserWithEmployee`: the user id is the first name-identifier claim
   * that parses as a GUID; the account is looked up by that id and its employee
   * by the account's employee id.
   */
  method GetCurrentUserWithEmployee(db: DataContext, claims: seq<string>, isGuid: string -> bool)
    returns (user: Option<ApplicationUser>, employee: Option<Employee>)
    ensures var at := FirstGuidAt(claims, isGuid);
      user.Some? <==> at.Some? && claims[at.value] != "" && claims[at.value] in db.users
    ensures user.Some? ==> user.value == db.users[claims[FirstGuidAt(claims, isGuid).value]]
    ensures employee.Some? <==> user.Some? && user.value.employeeId in db.employees
    ensures employee.Some? ==> employee.value == db.employees[user.value.employeeId]
  {
    var userId: Option<string> := None;
    var i := 0;
    while i < |claims|
      invariant 0 <= i <= |claims|
      invariant forall j | 0 <= j < i :: !isGuid(claims[j])
    {
      if isGuid(claims[i]) {
        userId := Some(claims[i]);
        break;
      }
      i := i + 1;
    }
    assert userId.Some? ==> FirstGuidAt(claims, isGuid) == Some(i);
    if IsNullOrEmpty(userId) {
      return None, None;
    }
    if userId.value !in db.users {
      return None, None;
    }
    user := Some(db.users[userId.value]);
    if user.value.employeeId in db.employees {
      employee := Some(db.employees[user.value.employeeId]);
    } else {
      employee := None;
    }
  }

  /** The address line: "street, postal city" when the customer's address row exists. */
  function AddressLine(db: DataContext, customerId: int): (r: string)
    reads db
    ensures r == "Address missing" <==>
      !(customerId in db.customers && db.customers[customerId].addressId in db.addresses)
    ensures customerId in db.customers && db.customers[customerId].addressId in db.addresses ==>
      var a := db.addresses[db.customers[customerId].addressId];
      r == a.streetName + ", " + a.postalCode + " " + a.city
  {
    if customerId in db.customers && db.customers[customerId].addressId in db.addresses then
      var a := db.addresses[db.customers[customerId].addressId];
      var line := a.streetName + ", " + a.postalCode + " " + a.city;
      assert line[|a.streetName|] == ',';
      assert forall j | 0 <= j < |"Address missing"| :: "Address missing"[j] != ',';
      line
    else "Address missing"
  }

  /** One entry of the signed-in cleaner's listing: the booking's own fields, its customer's name and address line. */
  function MyView(db: DataContext, b: Booking): (r: MyBookingView)
    reads db
    requires b.customerId in db.customers
    ensures r.id == b.id && r.date == b.date && r.time == b.time
    ensures var c := db.customers[b.customerId];
      && |r.customerName| == |c.firstName| + 1 + |c.lastName|
      && r.customerName[..|c.firstName|] == c.firstName && r.customerName[|c.firstName|] == ' '
      && r.customerName[|c.firstName| + 1..] == c.lastName
    ensures r.address == "Address missing" <==> db.customers[b.customerId].addressId !in db.addresses
  {
    MyBookingView(b.id, b.date, b.time, BookingService.FullName(db.customers[b.customerId]), AddressLine(db, b.customerId))
  }

  /** The listing of the bookings an employee has a join row for, each with its customer's address line. */
  function MyBookings(db: DataContext, employeeId: int): (r: map<int, MyBookingView>)
    reads db
    ensures r.Keys == GetByCleanerIdWithCustomerAndAddress(db, employeeId).Keys
    ensures forall k | k in r ::
      && BookingCleaner(db.bookings[k].id, employeeId) in db.bookingCleaners
      && r[k] == MyView(db, db.bookings[k])
  {
    var bookings := GetByCleanerIdWithCustomerAndAddress(db, employeeId);
    map k | k in bookings :: MyView(db, bookings[k])
  }

  /** In a consistent store the listing is exactly the employee's linked bookings, and empty without any. */
  lemma MyBookingsExactlyLinked(db: DataContext, employeeId: int)
    requires db.Valid()
    ensures MyBookings(db, employeeId).Keys == GetBookingIdsByCleanerId(db, employeeId)
    ensures GetBookingIdsByCleanerId(db, employeeId) == {} ==> MyBookings(db, employeeId) == map[]
  {
    LinkedBookingsExact(db, employeeId);
  }

  /**
   * `GetMyBookings`: Unauthorized unless the claims name an account whose
   * employee exists; otherwise that employee's listing.
   */
  method GetMyBookings(db: DataContext, claims: seq<string>, isGuid: string -> bool) returns (r: ActionResult)
    requires db.Valid()
    ensures var at := FirstGuidAt(claims, isGuid);
      var known := at.Some? && claims[at.value] != "" && claims[at.value] in db.users
                   && db.users[claims[at.value]].employeeId in db.employees;
      && (!known ==> r == Unauthorized("User or employee not found"))
      && (known ==> r == OkBookings(MyBookings(db, db.users[claims[at.value]].employeeId)))
    ensures r.OkBookings? ==> exists u | u in db.users :: forall k | k in r.bookings ::
      k in db.bookings && BookingCleaner(k, db.users[u].employeeId) in db.bookingCleaners
  {
    var user, employee := GetCurrentUserWithEmployee(db, claims, isGuid);
    if user.None? || employee.None? {
      return Unauthorized("User or employee not found");
    }
    var bookingIds := GetBookingIdsByCleanerId(db, employee.value.id);
    MyBookingsExactlyLinked(db, employee.value.id);
    if bookingIds == {} {
      return OkBookings(map[]);
    }
    r := OkBookings(MyBookings(db, employee.value.id));
    assert user.value.id in db.users;
  }
}
