/**
 * The customer repository. `GetCustomerById`, the two-row registration and
 * the two unimplemented stubs are in the source; the email test, the address
 * lookup and the delete are called by the service but their bodies
 * are not part of the repository, so they carry the plain meaning of their
 * names: one query, one key lookup, one delete. `SaveCustomerAsync` is
 * the store's `SaveCustomerAndAddress`.
 */
module CustomerRepository {
  import opened Wrappers
  import opened Entities
  import opened Store

  /** `GetCustomerById`: the customer whose id is `id`, or null. */
  function GetCustomerById(db: DataContext, id: int): (r: Option<Customer>)
    reads db
    ensures r.Some? <==> id in db.customers
    ensures r.Some? ==> r.value == db.customers[id]
  {
    if id in db.customers then Some(db.customers[id]) else None
  }

  /** `GetCustomerAddressById`: the address whose id is `id`, or null. */
  function GetCustomerAddressById(db: DataContext, id: int): (r: Option<Address>)
    reads db
    ensures r.Some? <==> id in db.addresses
    ensures r.Some? ==> r.value == db.addresses[id]
  {
    if id in db.addresses then Some(db.addresses[id]) else None
  }

  /**
   * `CustomerExistByEmail`: whether some customer has exactly that email; a
   * null email matches no row, since the column is not nullable.
   */
  predicate CustomerExistByEmail(customers: map<int, Customer>, email: Option<string>): (r: bool)
    ensures email.None? ==> !r
    ensures forall k | k in customers :: Some(customers[k].email) == email ==> r
  {
    email.Some? && exists k | k in customers :: customers[k].email == email.value
  }

  /**
   * `RegisterCustomerAsync`: inside one transaction, saves the address, points
   * the customer at the address's new id and saves the customer. Any failure
   * rolls both back and yields null; the identity columns are not given back.
   */
  method RegisterCustomerAsync(db: DataContext, request: CreateCustomerRequestDto) returns (r: Option<Customer>)
    requires db.Valid()
    modifies db
    ensures db.Valid() && NotBelow(db.Next(), old(db.Next()))
    ensures r.None? ==> db.State() == old(db.State())
    ensures r.None? <==>
      || request.customerStreetName.None? || request.customerCity.None? || request.customerPostalCode.None?
      || request.customerFirstName.None? || request.customerLastName.None? || request.customerEmail.None?
    ensures r.Some? ==>
      var a := Address(old(db.Next()).address, request.customerStreetName.value,
                       request.customerCity.value, request.customerPostalCode.value);
      && r.value == Customer(old(db.Next()).customer, request.customerFirstName.value,
                             request.customerLastName.value, request.customerEmail.value, a.id)
      && a.id !in old(db.addresses) && r.value.id !in old(db.customers)
      && db.State() == old(db.State()).(addresses := old(db.addresses)[a.id := a],
                                        customers := old(db.customers)[r.value.id := r.value])
    ensures r.Some? ==> r.value.addressId in db.addresses && db.customers[r.value.id] == r.value
  {
    var snapshot := db.State();
    var address := db.InsertAddress(request.customerStreetName, request.customerCity, request.customerPostalCode);
    if address.Threw? {
      db.Restore(snapshot);
      return None;
    }
    var customer := db.InsertCustomer(request.customerFirstName, request.customerLastName,
                                      request.customerEmail, address.value.id);
    if customer.Threw? {
      db.Restore(snapshot);
      return None;
    }
    r := Some(customer.value);
  }

  /** `DeleteCustomer`: not implemented; every call throws. */
  method DeleteCustomer(db: DataContext, id: int) returns (r: Raised<()>)
    ensures r == Threw(NotImplemented)
  {
    r := Threw(NotImplemented);
  }

  /** `UpdateCustomer`: not implemented; every call throws. */
  method UpdateCustomer(db: DataContext, customer: Customer) returns (r: Raised<()>)
    ensures r == Threw(NotImplemented)
  {
    r := Threw(NotImplemented);
  }

  /**
   * `DeleteCustomerAsync`: removes the customer and saves, which cascades to
   * its bookings and their join rows; a row already gone is a concurrency error.
   */
  method DeleteCustomerAsync(db: DataContext, customer: Customer) returns (r: Raised<bool>)
    requires db.Valid()
    modifies db
    ensures db.Valid() && db.Next() == old(db.Next())
    ensures customer.id !in old(db.customers) ==> r == Threw(DbConcurrency) && db.State() == old(db.State())
    ensures customer.id in old(db.customers) ==>
      r == Returned(true) && db.State() == WithoutCustomer(old(db.State()), customer.id)
  {
    var deleted := db.DeleteCustomerRow(customer.id);
    if deleted.Threw? {
      return Threw(deleted.ex);
    }
    r := Returned(true);
  }
}
