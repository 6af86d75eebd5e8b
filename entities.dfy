/**
 * The rows of the relational store and the request/response shapes the
 * workflows exchange. Nullable columns and DTO members are `Option`s;
 * columns the schema declares NOT NULL are plain values, so a row can
 * never hold null where the database would refuse it.
 */
module Entities {
  import opened Wrappers
  import Text

  /** A `TimeOnly` value in ticks of 100 ns: always within 00:00:00 .. 23:59:59.9999999. */
  newtype Time = t: int | 0 <= t < 864_000_000_000

  /** A `DateTime`, carried through unchanged (its ticks). */
  type Date = int

  /** Identity user ids are GUID strings. */
  type UserId = string

  datatype Address = Address(id: int, streetName: string, city: string, postalCode: string)

  datatype Customer = Customer(id: int, firstName: string, lastName: string, email: string, addressId: int)

  /** A row of the application's own Roles table (not the identity store's role table). */
  datatype Role = Role(id: int, name: string)

  datatype Employee = Employee(id: int, firstName: string, lastName: string, email: string,
                               phone: string, roleId: int)

  datatype Booking = Booking(id: int, customerId: int, date: Date, time: Time)

  /** The booking-to-cleaner join row; its key is the pair (bookingId, cleanerId). */
  datatype BookingCleaner = BookingCleaner(bookingId: int, cleanerId: int)

  /** An identity account; it is linked to exactly one employee by `employeeId`. */
  datatype ApplicationUser = ApplicationUser(id: UserId, userName: Option<string>,
                                             email: Option<string>, employeeId: int)

  /** A grant of an identity role, by name, to an identity account. */
  datatype UserRole = UserRole(userId: UserId, roleName: string)

  // ----- requests -----

  datatype CreateBookingDto = CreateBookingDto(customerId: int, date: Date, time: Option<string>,
                                               cleanerIds: Option<seq<int>>)

  /** Every member is optional: an absent one leaves the booking's field as it is. */
  datatype BookingUpdateDto = BookingUpdateDto(customerId: Option<int>, date: Option<Date>,
                                               time: Option<string>, cleanerIds: Option<seq<int>>)

  datatype RegisterCleanerDto = RegisterCleanerDto(firstName: Option<string>, lastName: Option<string>,
                                                   email: Option<string>, phone: Option<string>,
                                                   roleId: int, password: Option<string>)

  datatype UpdateEmployeeDto = UpdateEmployeeDto(email: Option<string>, firstName: Option<string>,
                                                 lastName: Option<string>, phone: Option<string>,
                                                 roleId: Option<int>)

  datatype CreateCustomerRequestDto = CreateCustomerRequestDto(
    customerFirstName: Option<string>, customerLastName: Option<string>, customerEmail: Option<string>,
    customerStreetName: Option<string>, customerCity: Option<string>, customerPostalCode: Option<string>)

  datatype UpdateCustomerDto = UpdateCustomerDto(
    customerFirstName: Option<string>, customerLastName: Option<string>, customerEmail: Option<string>,
    customerAddress: Option<string>, customerCity: Option<string>, customerPostalCode: Option<string>)

  // ----- responses -----

  datatype CustomerDto = CustomerDto(id: int, customerFirstName: string, customerLastName: string,
                                     customerEmail: string, customerStreetName: string,
                                     customerCity: string, customerPostalCode: string)

  /** What a cleaner sees of one booking: no ids or contact details of the customer. */
  datatype CleanerBookingView = CleanerBookingView(id: int, date: Date, time: Time, customerName: string)

  /** The cleaner's own listing from the API controller, with the flattened address line. */
  datatype MyBookingView = MyBookingView(id: int, date: Date, time: Time, customerName: string,
                                         address: string)

  // ----- exceptions -----

  /** The tables a constraint violation can name. */
  datatype Table = Customers | CustomerAddresses | Employees | Bookings | BookingCleanerTable | AspNetUsers | AspNetUserRoles

  /** Why the database refused a SaveChanges (the inner exception of a DbUpdateException). */
  datatype DbError =
    | PrimaryKeyViolation(table: Table)
    | ForeignKeyViolation(table: Table)
    | UniqueIndexViolation(table: Table)
    | NotNullViolation(table: Table)

  /** The exceptions the modelled code can raise or let escape. */
  datatype Exception =
    | CustomerNotFound(customerId: int)          // NotFoundException from the booking service
    | CleanerNotFound(cleanerId: int)            // NotFoundException from the booking service
    | InvalidTimeFormat(time: Option<string>)    // ArgumentException from the booking service
    | DbUpdate(cause: DbError)                   // DbUpdateException, with the database error inside
    | DbConcurrency                              // DbUpdateConcurrencyException: a row to change is gone
    | TrackingConflict(bookingId: int, cleanerId: int) // the change tracker already tracks that key
    | RoleNotFound(roleName: string)             // InvalidOperationException from AddToRoleAsync
    | ArgumentNull(param: string)                // ArgumentNullException from the identity library
    | NullReference
    | NotImplemented

  /** The outcome of a call that may throw. */
  datatype Raised<+T> = Returned(value: T) | Threw(ex: Exception)

  /** A text made of a fixed prefix, a variable part and a fixed suffix; the variable part can be read back. */
  function Framed(prefix: string, middle: string, suffix: string): (r: string)
    ensures |r| == |prefix| + |middle| + |suffix|
    ensures r[|prefix|..|prefix| + |middle|] == middle
  {
    var r := prefix + middle + suffix;
    assert r[|prefix|..|prefix| + |middle|] == middle;
    r
  }

  /**
   * `ex.Message`: the texts the source and the frameworks fix.
   * The not-found texts carry their id in decimal between a fixed prefix and suffix.
   */
  function Message(ex: Exception): (r: string)
    ensures ex.CustomerNotFound? ==>
      |r| == 27 + |Text.IntToString(ex.customerId)| && r[17..|r| - 10] == Text.IntToString(ex.customerId)
    ensures ex.CleanerNotFound? ==>
      |r| == 26 + |Text.IntToString(ex.cleanerId)| && r[16..|r| - 10] == Text.IntToString(ex.cleanerId)
  {
    match ex
    case CustomerNotFound(id) => Framed("Customer with ID ", Text.IntToString(id), " not found")
    case CleanerNotFound(id) => Framed("Cleaner with ID ", Text.IntToString(id), " not found")
    case _ => LibraryMessage(ex)
  }

  /** The texts of the exceptions the frameworks raise. */
  function LibraryMessage(ex: Exception): string {
    match ex
    case InvalidTimeFormat(t) => "Invalid time format: " + t.GetOr("") + ". Use HH:mm or HH:mm:ss format"
    case DbUpdate(_) => "An error occurred while saving the entity changes. See the inner exception for details."
    case DbConcurrency =>
      "The database operation was expected to affect 1 row(s), but actually affected 0 row(s); "
      + "data may have been modified or deleted since entities were loaded. "
      + "See https://go.microsoft.com/fwlink/?LinkId=527962 for information on understanding and handling "
      + "optimistic concurrency exceptions."
    case TrackingConflict(_, _) =>
      "The instance of entity type 'BookingCleanerEntity' cannot be tracked because another instance "
      + "with the same key value for {'BookingId', 'CleanerId'} is already being tracked. "
      + "When attaching existing entities, ensure that only one entity instance with a given key value is attached. "
      + "Consider using 'DbContextOptionsBuilder.EnableSensitiveDataLogging' to see the conflicting key values."
    case RoleNotFound(name) => "Role " + name + " does not exist."
    case ArgumentNull(param) => Framed("Value cannot be null. (Parameter '", param, "')")
    case NullReference => "Object reference not set to an instance of an object."
    case NotImplemented => "The method or operation is not implemented."
    case _ => ""  // the not-found texts are built in `Message`
  }

  /** Two not-found exceptions of the same kind with the same text are about the same id. */
  lemma NotFoundMessagesInjective(a: Exception, b: Exception)
    requires (a.CustomerNotFound? && b.CustomerNotFound?) || (a.CleanerNotFound? && b.CleanerNotFound?)
    requires Message(a) == Message(b)
    ensures a == b
  {
    if a.CustomerNotFound? {
      Text.IntToStringInjective(a.customerId, b.customerId);
    } else {
      Text.IntToStringInjective(a.cleanerId, b.cleanerId);
    }
  }

  /**
   * `ex.InnerException?.Message`: only a failed save wraps the database's own error. The database's
   * texts name constraints, tables and key values the model does not carry, so these are shortened stand-ins.
   */
  function InnerMessage(ex: Exception): (r: Option<string>)
    ensures r.Some? <==> ex.DbUpdate?
  {
    match ex
    case DbUpdate(PrimaryKeyViolation(_)) => Some("Violation of PRIMARY KEY constraint.")
    case DbUpdate(ForeignKeyViolation(_)) => Some("The INSERT statement conflicted with the FOREIGN KEY constraint.")
    case DbUpdate(UniqueIndexViolation(_)) => Some("Cannot insert duplicate key row with unique index.")
    case DbUpdate(NotNullViolation(_)) => Some("Cannot insert the value NULL into a column that does not allow nulls.")
    case _ => None
  }
}
