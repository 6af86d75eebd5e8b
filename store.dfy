/**
 * The relational store the workflows run against: one table per DbSet of the
 * data context, the identity store's accounts and role grants, and the
 * constraints of the schema (primary keys, NOT NULL columns, foreign keys with
 * their cascading deletes, and the unique index that makes an employee's
 * identity account one-to-one).
 *
 * Each method of `DataContext` is one SaveChanges: it either applies its whole
 * change or throws and changes nothing. A transaction is a snapshot of
 * `State()` taken when it opens; a rollback is `Restore(snapshot)`.
 */
module Store {
  import opened Wrappers
  import opened Entities

  /** Every table's rows at one moment (what a transaction snapshot saves). */
  datatype Tables = Tables(
    customers: map<int, Customer>,
    addresses: map<int, Address>,
    roles: map<int, Role>,
    employees: map<int, Employee>,
    bookings: map<int, Booking>,
    bookingCleaners: set<BookingCleaner>,
    users: map<UserId, ApplicationUser>,
    identityRoles: set<string>,
    userRoles: set<UserRole>)

  /** The next value of each identity column. */
  datatype Counters = Counters(customer: int, address: int, employee: int, booking: int)

  /** The join rows of one booking. */
  function RowsOf(rows: set<BookingCleaner>, bookingId: int): (r: set<BookingCleaner>)
    ensures r <= rows
    ensures forall bc :: bc in r <==> bc in rows && bc.bookingId == bookingId
  {
    set bc | bc in rows && bc.bookingId == bookingId
  }

  /** The join rows of one cleaner. */
  function RowsOfCleaner(rows: set<BookingCleaner>, cleanerId: int): (r: set<BookingCleaner>)
    ensures r <= rows
    ensures forall bc :: bc in r <==> bc in rows && bc.cleanerId == cleanerId
  {
    set bc | bc in rows && bc.cleanerId == cleanerId
  }

  /** The identity accounts linked to one employee (at most one in a consistent store). */
  function UsersOf(users: map<UserId, ApplicationUser>, employeeId: int): (r: set<UserId>)
    ensures r <= users.Keys
    ensures forall u :: u in r <==> u in users && users[u].employeeId == employeeId
  {
    set u | u in users && users[u].employeeId == employeeId
  }

  /** The role grants held by any of the given accounts. */
  function GrantsOf(grants: set<UserRole>, userIds: set<UserId>): (r: set<UserRole>)
    ensures r <= grants
    ensures forall g :: g in r <==> g in grants && g.userId in userIds
  {
    set g | g in grants && g.userId in userIds
  }

  /** The bookings of one customer, which a delete of that customer cascades to. */
  function BookingsOfCustomer(bookings: map<int, Booking>, customerId: int): (r: set<int>)
    ensures r <= bookings.Keys
    ensures forall k :: k in r <==> k in bookings && bookings[k].customerId == customerId
  {
    set k | k in bookings && bookings[k].customerId == customerId
  }

  /** The join rows that point at any of the given bookings. */
  function RowsOfBookings(rows: set<BookingCleaner>, bookingIds: set<int>): (r: set<BookingCleaner>)
    ensures r <= rows
    ensures forall bc :: bc in r <==> bc in rows && bc.bookingId in bookingIds
  {
    set bc | bc in rows && bc.bookingId in bookingIds
  }

  /** Referential integrity: what the schema's keys, foreign keys and unique index guarantee. */
  ghost predicate Consistent(t: Tables) {
    && (forall k | k in t.addresses :: t.addresses[k].id == k)
    && (forall k | k in t.customers :: t.customers[k].id == k && t.customers[k].addressId in t.addresses)
    && (forall k | k in t.roles :: t.roles[k].id == k)
    && (forall k | k in t.employees :: t.employees[k].id == k && t.employees[k].roleId in t.roles)
    && (forall k | k in t.bookings :: t.bookings[k].id == k && t.bookings[k].customerId in t.customers)
    && (forall bc | bc in t.bookingCleaners :: bc.bookingId in t.bookings && bc.cleanerId in t.employees)
    && (forall u | u in t.users :: t.users[u].id == u && t.users[u].employeeId in t.employees)
    && (forall u, v | u in t.users && v in t.users && t.users[u].employeeId == t.users[v].employeeId :: u == v)
    && (forall g | g in t.userRoles :: g.userId in t.users && g.roleName in t.identityRoles)
  }

  /** Every generated key lies below its identity column's next value. */
  ghost predicate KeysBelow(t: Tables, c: Counters) {
    && (forall k | k in t.customers :: k < c.customer)
    && (forall k | k in t.addresses :: k < c.address)
    && (forall k | k in t.employees :: k < c.employee)
    && (forall k | k in t.bookings :: k < c.booking)
  }

  /** Identity columns only move forward; a rollback does not give values back. */
  predicate NotBelow(c: Counters, was: Counters) {
    was.customer <= c.customer && was.address <= c.address
    && was.employee <= c.employee && was.booking <= c.booking
  }

  /**
   * The tables after an employee's row is deleted and the delete has cascaded:
   * the employee's join rows, its account and that account's grants go with
   * it, and every other row and table is kept.
   */
  function WithoutEmployee(t: Tables, id: int): (r: Tables)
    ensures r.employees == t.employees - {id}
    ensures forall bc :: bc in r.bookingCleaners <==> bc in t.bookingCleaners && bc.cleanerId != id
    ensures forall u :: u in r.users <==> u in t.users && t.users[u].employeeId != id
    ensures forall u | u in r.users :: r.users[u] == t.users[u]
    ensures forall g :: g in r.userRoles <==>
      g in t.userRoles && !(g.userId in t.users && t.users[g.userId].employeeId == id)
    ensures r == t.(employees := r.employees, bookingCleaners := r.bookingCleaners,
                    users := r.users, userRoles := r.userRoles)
  {
    var gone := UsersOf(t.users, id);
    t.(employees := t.employees - {id},
       bookingCleaners := t.bookingCleaners - RowsOfCleaner(t.bookingCleaners, id),
       users := t.users - gone,
       userRoles := t.userRoles - GrantsOf(t.userRoles, gone))
  }

  /** The cascade leaves no join row, account or grant pointing at the deleted employee. */
  lemma WithoutEmployeeConsistent(t: Tables, id: int)
    requires Consistent(t)
    ensures Consistent(WithoutEmployee(t, id))
  {
    var t' := WithoutEmployee(t, id);
    forall u | u in t'.users ensures t'.users[u].employeeId in t'.employees {
      assert t'.users[u] == t.users[u];
    }
    forall g | g in t'.userRoles ensures g.userId in t'.users {
      assert g !in GrantsOf(t.userRoles, UsersOf(t.users, id));
    }
  }

  /**
   * The tables after a customer's row is deleted and the delete has cascaded:
   * the customer's bookings and their join rows go with it. Its address stays:
   * the address is the principal end of that foreign key, so a delete of the
   * customer never reaches it.
   */
  function WithoutCustomer(t: Tables, id: int): (r: Tables)
    ensures r.customers == t.customers - {id}
    ensures forall k :: k in r.bookings <==> k in t.bookings && t.bookings[k].customerId != id
    ensures forall k | k in r.bookings :: r.bookings[k] == t.bookings[k]
    ensures forall bc :: bc in r.bookingCleaners <==>
      bc in t.bookingCleaners && !(bc.bookingId in t.bookings && t.bookings[bc.bookingId].customerId == id)
    ensures r == t.(customers := r.customers, bookings := r.bookings, bookingCleaners := r.bookingCleaners)
  {
    var gone := BookingsOfCustomer(t.bookings, id);
    t.(customers := t.customers - {id},
       bookings := t.bookings - gone,
       bookingCleaners := t.bookingCleaners - RowsOfBookings(t.bookingCleaners, gone))
  }

  /** The customer cascade leaves no booking or join row pointing at a deleted row. */
  lemma WithoutCustomerConsistent(t: Tables, id: int)
    requires Consistent(t)
    ensures Consistent(WithoutCustomer(t, id))
  {
    var t' := WithoutCustomer(t, id);
    forall k | k in t'.bookings ensures t'.bookings[k].customerId in t'.customers {
      assert t'.bookings[k] == t.bookings[k];
    }
    forall bc | bc in t'.bookingCleaners ensures bc.bookingId in t'.bookings {
      assert bc.bookingId in t.bookings;
    }
  }

  class DataContext {
    var customers: map<int, Customer>
    var addresses: map<int, Address>
    var roles: map<int, Role>
    var employees: map<int, Employee>
    var bookings: map<int, Booking>
    var bookingCleaners: set<BookingCleaner>
    var users: map<UserId, ApplicationUser>
    var identityRoles: set<string>
    var userRoles: set<UserRole>

    var nextCustomerId: int
    var nextAddressId: int
    var nextEmployeeId: int
    var nextBookingId: int

    function State(): Tables
      reads this
    {
      Tables(customers, addresses, roles, employees, bookings, bookingCleaners, users, identityRoles, userRoles)
    }

    function Next(): Counters
      reads this
    {
      Counters(nextCustomerId, nextAddressId, nextEmployeeId, nextBookingId)
    }

    ghost predicate Valid()
      reads this
    {
      Consistent(State()) && KeysBelow(State(), Next())
    }

    /** A store with the given roles and nothing else. */
    constructor (roles: map<int, Role>, identityRoles: set<string>)
      requires forall k | k in roles :: roles[k].id == k
      ensures Valid()
      ensures State() == Tables(map[], map[], roles, map[], map[], {}, map[], identityRoles, {})
    {
      this.customers, this.addresses, this.roles, this.employees := map[], map[], roles, map[];
      this.bookings, this.bookingCleaners, this.users := map[], {}, map[];
      this.identityRoles, this.userRoles := identityRoles, {};
      this.nextCustomerId, this.nextAddressId, this.nextEmployeeId, this.nextBookingId := 1, 1, 1, 1;
    }

    /** Rolling a transaction back: every table returns to the snapshot; identity values stay used. */
    method Restore(t: Tables)
      requires Consistent(t) && KeysBelow(t, Next())
      modifies this
      ensures Valid() && State() == t && Next() == old(Next())
    {
      customers, addresses, roles, employees := t.customers, t.addresses, t.roles, t.employees;
      bookings, bookingCleaners, users := t.bookings, t.bookingCleaners, t.users;
      identityRoles, userRoles := t.identityRoles, t.userRoles;
      assert State() == t;
    }

    // ----- bookings and their join rows -----

    method InsertBooking(customerId: int, date: Date, time: Time) returns (r: Raised<int>)
      requires Valid()
      modifies this
      ensures Valid() && NotBelow(Next(), old(Next()))
      ensures customerId !in old(customers) ==>
        r == Threw(DbUpdate(ForeignKeyViolation(Bookings))) && State() == old(State())
      ensures customerId in old(customers) ==>
        && r == Returned(old(nextBookingId))
        && old(nextBookingId) !in old(bookings)
        && State() == old(State()).(bookings := old(bookings)[r.value := Booking(r.value, customerId, date, time)])
    {
      if customerId !in customers {
        return Threw(DbUpdate(ForeignKeyViolation(Bookings)));
      }
      var id := nextBookingId;
      bookings := bookings[id := Booking(id, customerId, date, time)];
      nextBookingId := nextBookingId + 1;
      r := Returned(id);
    }

    method UpdateBookingRow(b: Booking) returns (r: Raised<()>)
      requires Valid()
      modifies this
      ensures Valid() && Next() == old(Next())
      ensures b.id !in old(bookings) ==> r == Threw(DbConcurrency) && State() == old(State())
      ensures b.id in old(bookings) && b.customerId !in old(customers) ==>
        r == Threw(DbUpdate(ForeignKeyViolation(Bookings))) && State() == old(State())
      ensures b.id in old(bookings) && b.customerId in old(customers) ==>
        r == Returned(()) && State() == old(State()).(bookings := old(bookings)[b.id := b])
    {
      if b.id !in bookings {
        return Threw(DbConcurrency);
      }
      if b.customerId !in customers {
        return Threw(DbUpdate(ForeignKeyViolation(Bookings)));
      }
      bookings := bookings[b.id := b];
      r := Returned(());
    }

    /** Deleting a booking; the foreign key cascades to its join rows. */
    method DeleteBookingRow(id: int) returns (r: Raised<()>)
      requires Valid()
      modifies this
      ensures Valid() && Next() == old(Next())
      ensures id !in old(bookings) ==> r == Threw(DbConcurrency) && State() == old(State())
      ensures id in old(bookings) ==>
        && r == Returned(())
        && State() == old(State()).(bookings := old(bookings) - {id},
                                    bookingCleaners := old(bookingCleaners) - RowsOf(old(bookingCleaners), id))
    {
      if id !in bookings {
        return Threw(DbConcurrency);
      }
      bookings := bookings - {id};
      bookingCleaners := bookingCleaners - RowsOf(bookingCleaners, id);
      r := Returned(());
    }

    /** One save of staged join-row deletions and insertions; a deleted key may be inserted again. */
    method SaveBookingCleanerChanges(removed: set<BookingCleaner>, added: set<BookingCleaner>)
      returns (r: Raised<()>)
      requires Valid()
      modifies this
      ensures Valid() && Next() == old(Next())
      ensures r.Threw? ==> State() == old(State())
      ensures !(removed <= old(bookingCleaners)) ==> r == Threw(DbConcurrency)
      ensures removed <= old(bookingCleaners) && added * (old(bookingCleaners) - removed) != {} ==>
        r == Threw(DbUpdate(PrimaryKeyViolation(BookingCleanerTable)))
      ensures r.Returned? <==>
        && removed <= old(bookingCleaners)
        && added * (old(bookingCleaners) - removed) == {}
        && (forall bc | bc in added :: bc.bookingId in old(bookings) && bc.cleanerId in old(employees))
      ensures r.Returned? ==>
        State() == old(State()).(bookingCleaners := old(bookingCleaners) - removed + added)
    {
      if !(removed <= bookingCleaners) {
        return Threw(DbConcurrency);
      }
      if added * (bookingCleaners - removed) != {} {
        return Threw(DbUpdate(PrimaryKeyViolation(BookingCleanerTable)));
      }
      if exists bc | bc in added :: bc.bookingId !in bookings || bc.cleanerId !in employees {
        return Threw(DbUpdate(ForeignKeyViolation(BookingCleanerTable)));
      }
      bookingCleaners := bookingCleaners - removed + added;
      r := Returned(());
    }

    /** One save that deletes some join rows and a booking together (the rest cascade). */
    method DeleteBookingWithRows(id: int, removed: set<BookingCleaner>) returns (r: Raised<()>)
      requires Valid()
      modifies this
      ensures Valid() && Next() == old(Next())
      ensures r.Returned? <==> id in old(bookings) && removed <= old(bookingCleaners)
      ensures r.Threw? ==> r.ex == DbConcurrency && State() == old(State())
      ensures r.Returned? ==>
        State() == old(State()).(bookings := old(bookings) - {id},
                                 bookingCleaners := old(bookingCleaners) - removed - RowsOf(old(bookingCleaners), id))
    {
      if id !in bookings || !(removed <= bookingCleaners) {
        return Threw(DbConcurrency);
      }
      bookings := bookings - {id};
      bookingCleaners := bookingCleaners - removed - RowsOf(bookingCleaners, id);
      r := Returned(());
    }

    // ----- employees -----

    method InsertEmployee(firstName: Option<string>, lastName: Option<string>, email: Option<string>,
                          phone: Option<string>, roleId: int) returns (r: Raised<Employee>)
      requires Valid()
      modifies this
      ensures Valid() && NotBelow(Next(), old(Next()))
      ensures r.Threw? ==> State() == old(State())
      ensures (firstName.None? || lastName.None? || email.None? || phone.None?) ==>
        r == Threw(DbUpdate(NotNullViolation(Employees)))
      ensures firstName.Some? && lastName.Some? && email.Some? && phone.Some? && roleId !in old(roles) ==>
        r == Threw(DbUpdate(ForeignKeyViolation(Employees)))
      ensures firstName.Some? && lastName.Some? && email.Some? && phone.Some? && roleId in old(roles) ==>
        && r.Returned?
        && r.value == Employee(old(nextEmployeeId), firstName.value, lastName.value, email.value, phone.value, roleId)
        && r.value.id !in old(employees)
        && State() == old(State()).(employees := old(employees)[r.value.id := r.value])
    {
      if firstName.None? || lastName.None? || email.None? || phone.None? {
        return Threw(DbUpdate(NotNullViolation(Employees)));
      }
      if roleId !in roles {
        return Threw(DbUpdate(ForeignKeyViolation(Employees)));
      }
      var e := Employee(nextEmployeeId, firstName.value, lastName.value, email.value, phone.value, roleId);
      employees := employees[e.id := e];
      nextEmployeeId := nextEmployeeId + 1;
      r := Returned(e);
    }

    method UpdateEmployeeRow(e: Employee) returns (r: Raised<()>)
      requires Valid()
      modifies this
      ensures Valid() && Next() == old(Next())
      ensures r.Threw? ==> State() == old(State())
      ensures e.id !in old(employees) ==> r == Threw(DbConcurrency)
      ensures e.id in old(employees) && e.roleId !in old(roles) ==> r == Threw(DbUpdate(ForeignKeyViolation(Employees)))
      ensures e.id in old(employees) && e.roleId in old(roles) ==>
        r == Returned(()) && State() == old(State()).(employees := old(employees)[e.id := e])
    {
      if e.id !in employees {
        return Threw(DbConcurrency);
      }
      if e.roleId !in roles {
        return Threw(DbUpdate(ForeignKeyViolation(Employees)));
      }
      employees := employees[e.id := e];
      r := Returned(());
    }

    /** Deleting an employee cascades to its join rows and to its identity account and grants. */
    method DeleteEmployeeRow(id: int) returns (r: Raised<()>)
      requires Valid()
      modifies this
      ensures Valid() && Next() == old(Next())
      ensures id !in old(employees) ==> r == Threw(DbConcurrency) && State() == old(State())
      ensures id in old(employees) ==> r == Returned(()) && State() == WithoutEmployee(old(State()), id)
    {
      if id !in employees {
        return Threw(DbConcurrency);
      }
      var t := WithoutEmployee(State(), id);
      WithoutEmployeeConsistent(State(), id);
      employees, bookingCleaners, users, userRoles := t.employees, t.bookingCleaners, t.users, t.userRoles;
      assert State() == t;
      r := Returned(());
    }

    // ----- identity accounts -----

    method InsertUser(u: ApplicationUser) returns (r: Raised<()>)
      requires Valid()
      modifies this
      ensures Valid() && Next() == old(Next())
      ensures r.Threw? ==> State() == old(State())
      ensures u.id in old(users) ==> r == Threw(DbUpdate(PrimaryKeyViolation(AspNetUsers)))
      ensures u.id !in old(users) && u.employeeId !in old(employees) ==>
        r == Threw(DbUpdate(ForeignKeyViolation(AspNetUsers)))
      ensures u.id !in old(users) && u.employeeId in old(employees) && UsersOf(old(users), u.employeeId) != {} ==>
        r == Threw(DbUpdate(UniqueIndexViolation(AspNetUsers)))
      ensures u.id !in old(users) && u.employeeId in old(employees) && UsersOf(old(users), u.employeeId) == {} ==>
        r == Returned(()) && State() == old(State()).(users := old(users)[u.id := u])
    {
      if u.id in users {
        return Threw(DbUpdate(PrimaryKeyViolation(AspNetUsers)));
      }
      if u.employeeId !in employees {
        return Threw(DbUpdate(ForeignKeyViolation(AspNetUsers)));
      }
      if UsersOf(users, u.employeeId) != {} {
        return Threw(DbUpdate(UniqueIndexViolation(AspNetUsers)));
      }
      users := users[u.id := u];
      r := Returned(());
    }

    /** Saving an account's user name and email (the only columns the workflows change). */
    method UpdateUserNames(id: UserId, userName: Option<string>, email: Option<string>) returns (r: Raised<()>)
      requires Valid()
      modifies this
      ensures Valid() && Next() == old(Next())
      ensures id !in old(users) ==> r == Threw(DbConcurrency) && State() == old(State())
      ensures id in old(users) ==>
        && r == Returned(())
        && State() == old(State()).(users := old(users)[id := old(users)[id].(userName := userName, email := email)])
    {
      if id !in users {
        return Threw(DbConcurrency);
      }
      users := users[id := users[id].(userName := userName, email := email)];
      r := Returned(());
    }

    /** Deleting an account cascades to its role grants. */
    method DeleteUser(id: UserId) returns (r: Raised<()>)
      requires Valid()
      modifies this
      ensures Valid() && Next() == old(Next())
      ensures id !in old(users) ==> r == Threw(DbConcurrency) && State() == old(State())
      ensures id in old(users) ==>
        && r == Returned(())
        && State() == old(State()).(users := old(users) - {id},
                                    userRoles := old(userRoles) - GrantsOf(old(userRoles), {id}))
    {
      if id !in users {
        return Threw(DbConcurrency);
      }
      userRoles := userRoles - GrantsOf(userRoles, {id});
      users := users - {id};
      r := Returned(());
    }

    method InsertUserRole(g: UserRole) returns (r: Raised<()>)
      requires Valid()
      modifies this
      ensures Valid() && Next() == old(Next())
      ensures r.Threw? ==> State() == old(State())
      ensures r.Returned? <==> g !in old(userRoles) && g.userId in old(users) && g.roleName in old(identityRoles)
      ensures g in old(userRoles) ==> r == Threw(DbUpdate(PrimaryKeyViolation(AspNetUserRoles)))
      ensures g !in old(userRoles) && (g.userId !in old(users) || g.roleName !in old(identityRoles)) ==>
        r == Threw(DbUpdate(ForeignKeyViolation(AspNetUserRoles)))
      ensures r.Returned? ==> State() == old(State()).(userRoles := old(userRoles) + {g})
    {
      if g in userRoles {
        return Threw(DbUpdate(PrimaryKeyViolation(AspNetUserRoles)));
      }
      if g.userId !in users || g.roleName !in identityRoles {
        return Threw(DbUpdate(ForeignKeyViolation(AspNetUserRoles)));
      }
      userRoles := userRoles + {g};
      r := Returned(());
    }

    // ----- customers and addresses -----

    method InsertAddress(streetName: Option<string>, city: Option<string>, postalCode: Option<string>)
      returns (r: Raised<Address>)
      requires Valid()
      modifies this
      ensures Valid() && NotBelow(Next(), old(Next()))
      ensures Next().customer == old(Next()).customer
      ensures (streetName.None? || city.None? || postalCode.None?) ==>
        r == Threw(DbUpdate(NotNullViolation(CustomerAddresses))) && State() == old(State())
      ensures streetName.Some? && city.Some? && postalCode.Some? ==>
        && r == Returned(Address(old(nextAddressId), streetName.value, city.value, postalCode.value))
        && r.value.id !in old(addresses)
        && State() == old(State()).(addresses := old(addresses)[r.value.id := r.value])
    {
      if streetName.None? || city.None? || postalCode.None? {
        return Threw(DbUpdate(NotNullViolation(CustomerAddresses)));
      }
      var a := Address(nextAddressId, streetName.value, city.value, postalCode.value);
      addresses := addresses[a.id := a];
      nextAddressId := nextAddressId + 1;
      r := Returned(a);
    }

    method InsertCustomer(firstName: Option<string>, lastName: Option<string>, email: Option<string>,
                          addressId: int) returns (r: Raised<Customer>)
      requires Valid()
      modifies this
      ensures Valid() && NotBelow(Next(), old(Next()))
      ensures r.Threw? ==> State() == old(State())
      ensures (firstName.None? || lastName.None? || email.None?) ==>
        r == Threw(DbUpdate(NotNullViolation(Customers)))
      ensures firstName.Some? && lastName.Some? && email.Some? && addressId !in old(addresses) ==>
        r == Threw(DbUpdate(ForeignKeyViolation(Customers)))
      ensures firstName.Some? && lastName.Some? && email.Some? && addressId in old(addresses) ==>
        && r == Returned(Customer(old(nextCustomerId), firstName.value, lastName.value, email.value, addressId))
        && r.value.id !in old(customers)
        && State() == old(State()).(customers := old(customers)[r.value.id := r.value])
    {
      if firstName.None? || lastName.None? || email.None? {
        return Threw(DbUpdate(NotNullViolation(Customers)));
      }
      if addressId !in addresses {
        return Threw(DbUpdate(ForeignKeyViolation(Customers)));
      }
      var c := Customer(nextCustomerId, firstName.value, lastName.value, email.value, addressId);
      customers := customers[c.id := c];
      nextCustomerId := nextCustomerId + 1;
      r := Returned(c);
    }

    /** One save of a changed customer row and, when it was loaded, its changed address row. */
    method SaveCustomerAndAddress(c: Customer, a: Option<Address>) returns (r: Raised<()>)
      requires Valid()
      modifies this
      ensures Valid() && Next() == old(Next())
      ensures r.Threw? ==> State() == old(State())
      ensures r.Returned? <==>
        c.id in old(customers) && c.addressId in old(addresses) && (a.Some? ==> a.value.id in old(addresses))
      ensures r.Returned? ==>
        State() == old(State()).(
          customers := old(customers)[c.id := c],
          addresses := if a.Some? then old(addresses)[a.value.id := a.value] else old(addresses))
    {
      if c.id !in customers || (a.Some? && a.value.id !in addresses) {
        return Threw(DbConcurrency);
      }
      if c.addressId !in addresses {
        return Threw(DbUpdate(ForeignKeyViolation(Customers)));
      }
      customers := customers[c.id := c];
      if a.Some? {
        addresses := addresses[a.value.id := a.value];
      }
      r := Returned(());
    }

    /** Deleting a customer cascades to its bookings and to their join rows. */
    method DeleteCustomerRow(id: int) returns (r: Raised<()>)
      requires Valid()
      modifies this
      ensures Valid() && Next() == old(Next())
      ensures id !in old(customers) ==> r == Threw(DbConcurrency) && State() == old(State())
      ensures id in old(customers) ==> r == Returned(()) && State() == WithoutCustomer(old(State()), id)
    {
      if id !in customers {
        return Threw(DbConcurrency);
      }
      var t := WithoutCustomer(State(), id);
      WithoutCustomerConsistent(State(), id);
      customers, bookings, bookingCleaners := t.customers, t.bookings, t.bookingCleaners;
      assert State() == t;
      r := Returned(());
    }
  }
}
