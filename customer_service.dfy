/**
 * The customer service: registration (refused for a known email), lookup as
 * a DTO, removal and the field-by-field update.
 */
module CustomerService {
  import opened Wrappers
  import opened Entities
  import opened Store
  import opened Results
  import opened CustomerRepository

  /** The DTO for a customer and an address row. */
  function ToDto(c: Customer, a: Address): (r: CustomerDto)
    ensures r.id == c.id && r.customerEmail == c.email
    ensures r.customerFirstName == c.firstName && r.customerLastName == c.lastName
    ensures r.customerStreetName == a.streetName && r.customerCity == a.city && r.customerPostalCode == a.postalCode
  {
    CustomerDto(c.id, c.firstName, c.lastName, c.email, a.streetName, a.city, a.postalCode)
  }

  /** Whether the request carries every column the two rows require. */
  predicate Complete(request: CreateCustomerRequestDto) {
    && request.customerFirstName.Some? && request.customerLastName.Some? && request.customerEmail.Some?
    && request.customerStreetName.Some? && request.customerCity.Some? && request.customerPostalCode.Some?
  }

  /**
   * `RegisterCustomerAsync`: a known email is refused before anything is
   * written; otherwise both rows are registered together. A registration the
   * repository gives up on (null) is dereferenced, so it throws.
   */
  method RegisterCustomerAsync(db: DataContext, request: CreateCustomerRequestDto)
    returns (r: Raised<ServiceResultOf<CustomerDto>>)
    requires db.Valid()
    modifies db
    ensures db.Valid() && NotBelow(db.Next(), old(db.Next()))
    ensures !(r.Returned? && r.value.success) ==> db.State() == old(db.State())
    ensures CustomerExistByEmail(old(db.customers), request.customerEmail) ==>
      r == Returned(FailWith("Kunden finns redan i databasen", None))
    ensures !CustomerExistByEmail(old(db.customers), request.customerEmail) && !Complete(request) ==>
      r == Threw(NullReference)
    ensures !CustomerExistByEmail(old(db.customers), request.customerEmail) && Complete(request) ==>
      var a := Address(old(db.Next()).address, request.customerStreetName.value,
                       request.customerCity.value, request.customerPostalCode.value);
      var c := Customer(old(db.Next()).customer, request.customerFirstName.value,
                        request.customerLastName.value, request.customerEmail.value, a.id);
      && r == Returned(OkWith(ToDto(c, a), Some("Kunden är skapad")))
      && c.id !in old(db.customers) && a.id !in old(db.addresses)
      && db.State() == old(db.State()).(addresses := old(db.addresses)[a.id := a],
                                        customers := old(db.customers)[c.id := c])
  {
    if CustomerExistByEmail(db.customers, request.customerEmail) {
      return Returned(FailWith("Kunden finns redan i databasen", None));
    }
    var result := CustomerRepository.RegisterCustomerAsync(db, request);
    if result.None? {
      return Threw(NullReference);
    }
    var address := Address(result.value.addressId, request.customerStreetName.value,
                           request.customerCity.value, request.customerPostalCode.value);
    r := Returned(OkWith(ToDto(result.value, address), Some("Kunden är skapad")));
  }

  /**
   * `GetCustomerAsync` as written: the address is looked up under the
   * customer's own id rather than under the customer's `AddressId`.
   */
  function GetCustomerAsync(t: Tables, id: int): (r: ServiceResultOf<CustomerDto>)
    ensures id !in t.customers ==> r == FailWith("Kund saknas", None)
    ensures id in t.customers && id !in t.addresses ==> r == FailWith("Address saknas", None)
    ensures id in t.customers && id in t.addresses ==>
      r == OkWith(ToDto(t.customers[id], t.addresses[id]), Some("Anställd hittad"))
  {
    if id !in t.customers then FailWith("Kund saknas", None)
    else if id !in t.addresses then FailWith("Address saknas", None)
    else OkWith(ToDto(t.customers[id], t.addresses[id]), Some("Anställd hittad"))
  }

  /** `GetCustomerAsync` as intended: the address is the one the customer points at. */
  function GetCustomer(t: Tables, id: int): (r: ServiceResultOf<CustomerDto>)
    ensures id !in t.customers ==> r == FailWith("Kund saknas", None)
    ensures Consistent(t) && id in t.customers ==>
      r == OkWith(ToDto(t.customers[id], t.addresses[t.customers[id].addressId]), Some("Anställd hittad"))
  {
    if id !in t.customers then FailWith("Kund saknas", None)
    else if t.customers[id].addressId !in t.addresses then FailWith("Address saknas", None)
    else OkWith(ToDto(t.customers[id], t.addresses[t.customers[id].addressId]), Some("Anställd hittad"))
  }

  /** Two address rows that read the same, whatever their keys. */
  predicate SameAddress(a: Address, b: Address) {
    a.streetName == b.streetName && a.city == b.city && a.postalCode == b.postalCode
  }

  /**
   * The lookup as written gives the customer's own address exactly when some
   * address row happens to be keyed by the customer's id and reads the same.
   */
  lemma GetCustomerAsyncAgreesIff(t: Tables, id: int)
    requires Consistent(t) && id in t.customers
    ensures GetCustomerAsync(t, id) == GetCustomer(t, id) <==>
      id in t.addresses && SameAddress(t.addresses[id], t.addresses[t.customers[id].addressId])
  {
    var own := t.addresses[t.customers[id].addressId];
    if id in t.addresses && GetCustomerAsync(t, id) == GetCustomer(t, id) {
      assert ToDto(t.customers[id], t.addresses[id]) == ToDto(t.customers[id], own);
    }
  }

  /** A consistent store: customer 1 lives at address 2, and no address has key 1. */
  function MisleadingStore(): Tables {
    Tables(map[1 := Customer(1, "Anna", "Berg", "anna@example.com", 2)],
           map[2 := Address(2, "Storgatan 1", "Uppsala", "75320")],
           map[], map[], map[], {}, map[], {}, {})
  }

  /** On that store the lookup as written reports a missing address that the intended one finds. */
  lemma GetCustomerAsyncMissesAddress()
    ensures Consistent(MisleadingStore())
    ensures GetCustomerAsync(MisleadingStore(), 1) == FailWith("Address saknas", None)
    ensures GetCustomer(MisleadingStore(), 1).success
  {
    var t := MisleadingStore();
    assert t.customers[1].addressId in t.addresses;
  }

  /**
   * `RemoveCustomerAsync`: a missing customer fails; otherwise the customer is
   * deleted with its bookings and their join rows.
   */
  method RemoveCustomerAsync(db: DataContext, id: int) returns (r: Raised<ServiceResult>)
    requires db.Valid()
    modifies db
    ensures db.Valid() && db.Next() == old(db.Next())
    ensures id !in old(db.customers) ==>
      r == Returned(Fail("Kunden kunde inte hittas", None)) && db.State() == old(db.State())
    ensures id in old(db.customers) ==>
      && r == Returned(Ok(Some("Kunden är raderad från databasen")))
      && db.State() == WithoutCustomer(old(db.State()), id)
  {
    var customer := GetCustomerById(db, id);
    if customer.None? {
      return Returned(Fail("Kunden kunde inte hittas", None));
    }
    assert customer.value.id == id;
    var result := DeleteCustomerAsync(db, customer.value);
    r := match result
      case Threw(ex) => Threw(ex)
      case Returned(false) => Returned(Fail("Kunden finns inte i databasen", None))
      case Returned(true) => Returned(Ok(Some("Kunden är raderad från databasen")));
  }

  /** The customer after the update's assignments: each non-empty field replaces the old one. */
  function PatchedCustomer(c: Customer, request: UpdateCustomerDto): (r: Customer)
    ensures r.id == c.id && r.addressId == c.addressId
    ensures r.firstName == (if IsNullOrEmpty(request.customerFirstName) then c.firstName else request.customerFirstName.value)
    ensures r.lastName == (if IsNullOrEmpty(request.customerLastName) then c.lastName else request.customerLastName.value)
    ensures r.email == (if IsNullOrEmpty(request.customerEmail) then c.email else request.customerEmail.value)
  {
    Customer(c.id,
             if IsNullOrEmpty(request.customerFirstName) then c.firstName else request.customerFirstName.value,
             if IsNullOrEmpty(request.customerLastName) then c.lastName else request.customerLastName.value,
             if IsNullOrEmpty(request.customerEmail) then c.email else request.customerEmail.value,
             c.addressId)
  }

  /** The address after the update's assignments: each non-empty field replaces the old one. */
  function PatchedAddress(a: Address, request: UpdateCustomerDto): (r: Address)
    ensures r.id == a.id
    ensures r.streetName == (if IsNullOrEmpty(request.customerAddress) then a.streetName else request.customerAddress.value)
    ensures r.city == (if IsNullOrEmpty(request.customerCity) then a.city else request.customerCity.value)
    ensures r.postalCode == (if IsNullOrEmpty(request.customerPostalCode) then a.postalCode else request.customerPostalCode.value)
  {
    Address(a.id,
            if IsNullOrEmpty(request.customerAddress) then a.streetName else request.customerAddress.value,
            if IsNullOrEmpty(request.customerCity) then a.city else request.customerCity.value,
            if IsNullOrEmpty(request.customerPostalCode) then a.postalCode else request.customerPostalCode.value)
  }

  /** The update's response: the saved customer's names and email and its address fields. */
  function UpdatedView(c: Customer, a: Address): UpdateCustomerDto {
    UpdateCustomerDto(Some(c.firstName), Some(c.lastName), Some(c.email),
                      Some(a.streetName), Some(a.city), Some(a.postalCode))
  }

  /**
   * `UpdateCustomerAsync`: a missing customer fails; a non-empty email that
   * any customer already has, the customer's own included, fails before
   * anything is saved; otherwise the non-empty fields replace the customer's
   * and its address's, and one save writes both.
   */
  method UpdateCustomerAsync(db: DataContext, id: int, request: UpdateCustomerDto)
    returns (r: Raised<ServiceResultOf<UpdateCustomerDto>>)
    requires db.Valid()
    modifies db
    ensures db.Valid() && db.Next() == old(db.Next())
    ensures id !in old(db.customers) ==>
      r == Returned(FailWith("Kunden finns inte i systemet", None)) && db.State() == old(db.State())
    ensures id in old(db.customers) && !IsNullOrEmpty(request.customerEmail) && CustomerExistByEmail(old(db.customers), request.customerEmail) ==>
      r == Returned(FailWith("Användare med den eposten finns redan", None)) && db.State() == old(db.State())
    ensures id in old(db.customers) && !IsNullOrEmpty(request.customerEmail)
            && request.customerEmail.value == old(db.customers)[id].email ==>
      r == Returned(FailWith("Användare med den eposten finns redan", None))
    ensures id in old(db.customers) && (IsNullOrEmpty(request.customerEmail) || !CustomerExistByEmail(old(db.customers), request.customerEmail)) ==>
      var c := PatchedCustomer(old(db.customers)[id], request);
      && c.addressId in old(db.addresses)
      && var a := PatchedAddress(old(db.addresses)[c.addressId], request);
         && r == Returned(OkWith(UpdatedView(c, a), None))
         && db.State() == old(db.State()).(customers := old(db.customers)[id := c],
                                           addresses := old(db.addresses)[a.id := a])
  {
    var found := GetCustomerById(db, id);
    if found.None? {
      return Returned(FailWith("Kunden finns inte i systemet", None));
    }
    var customer := found.value;
    assert customer.id == id;
    if !IsNullOrEmpty(request.customerEmail) {
      if CustomerExistByEmail(db.customers, request.customerEmail) {
        return Returned(FailWith("Användare med den eposten finns redan", None));
      }
    }
    customer := PatchedCustomer(customer, request);
    var address := GetCustomerAddressById(db, customer.addressId);
    if address.Some? {
      address := Some(PatchedAddress(address.value, request));
    }
    var saved := db.SaveCustomerAndAddress(customer, address);
    r := match (saved, address)
      case (Threw(ex), _) => Threw(ex)
      case (Returned(_), None) => Threw(NullReference)
      case (Returned(_), Some(a)) => Returned(OkWith(UpdatedView(customer, a), None));
  }
}
