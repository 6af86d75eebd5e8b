# Booking, customer and employee write workflows — a Dafny model

This project models the write workflows of the `api_backend` cleaning-company
service, together with the queries they depend on. The service is written in
C# with Entity Framework and ASP.NET Identity. Everything runs against one
relational store. In the model, that store is the class `Store.DataContext`:

- one `map` field per table, keyed by primary key;
- a `set` of booking-to-cleaner join rows, keyed by the pair;
- the identity accounts, identity role names and role grants;
- the next value of each identity column.

`DataContext.Valid()` says what the schema guarantees:

- every foreign key resolves;
- each account is linked to exactly one existing employee (the required foreign key on `EmployeeId`), and each employee has at most one account (the unique index on `EmployeeId`);
- each row is stored under its own id;
- every generated id is below its identity counter.

Every state-changing method keeps `Valid()`. Its `ensures` states the whole
new state as `db.State()`, written as a function of `old(db.State())`.

A database transaction is modelled as a snapshot of `State()`. A rollback is
`Restore(snapshot)`. It returns every table to the snapshot but keeps the
identity counters, as SQL Server identity columns do. An exception is a
`Raised<T>` value, `Returned(v)` or `Threw(ex)`. The exception kind carries the
data its message is built from, except for the database's own inner messages
(see "## Left out").

The modules follow the source:

- `BookingRepository`, `BookingService` and `BookingApiController`:
  - create, update and delete of bookings;
  - the one-by-one adding of join rows from a cleaner-id list, whose meaning
    is the function `Assignments.AddEach`;
  - the cleaner's own listings.
- `EmployeeRepository`, `Identity` and `EmployeeService`:
  - the registration transaction (employee, account, role grant);
  - delete, and update with its two separate identity saves.
- `CustomerRepository` and `CustomerService`:
  - the two-row registration transaction (address, then customer);
  - lookup, update and removal.
- `Results`: the service result objects.

Three behaviours of the code shape the model:

- **Unknown role id.** An unknown role id does not give a registered employee
  without a role. `RoleId` is a foreign key, so the insert fails and the
  registration rolls back (`EmployeeService.RegisterEmployeeAsync`).
- **No transaction in the booking service.** `BookingService.CreateBookingAsync`
  and `UpdateBookingAsync` run without one. Each join row is saved on its own
  and stays tracked by the request's context. A cleaner listed twice therefore
  makes the second `Add` throw the change tracker's conflict
  (`TrackingConflict`) before any save, and the rows added before it stay.
- **Raw messages.** Failures reach the caller with the raw exception message,
  not a generic text. The model uses the full fixed texts of the service's own
  exceptions and of the framework exceptions it raises.

## Model

| member | source | states |
|---|---|---|
| Text.IntToString | Controllers/BookingApiController.cs:158 | an `int` in decimal, with a minus sign exactly when it is negative |
| Text.NatToStringRoundTrip | Controllers/BookingApiController.cs:158 | reading the rendered digits back gives the number |
| Text.IntToStringInjective | Controllers/BookingApiController.cs:224 | different ids give different message texts |
| Entities.Message | Services/BookingService.cs:86-92 | the not-found texts carry the id in decimal between their fixed prefix and suffix |
| Entities.NotFoundMessagesInjective | Services/BookingService.cs:225-256 | two not-found texts of one kind are equal only for the same id |
| Entities.InnerMessage | Services/EmployeeService.cs:102-103 | only a failed save (DbUpdateException) has an inner exception |
| Results.Ok | Results/ServiceResult.cs:9-13 | success, the given message, no error list |
| Results.Fail | Results/ServiceResult.cs:14-15 | failure carrying exactly that message and error list |
| Results.OkWith | Results/ServiceResult.cs:24-29 | success carrying the data and message |
| Results.FailWith | Results/ServiceResult.cs:30 | failure without data, with that message and error list |
| Store.WithoutEmployee | Migrations/20250428114702_Init.cs:117-128 | deleting an employee drops exactly its join rows, its account and that account's grants; every other row and table is kept |
| Store.WithoutCustomer | Migrations/20250428114702_Init.cs:99-122 | deleting a customer drops exactly its bookings and their join rows; its address and every other table are kept |
| Store.WithoutCustomerConsistent | Migrations/20250428114702_Init.cs:99-122 | the customer cascade keeps every foreign key and the unique index intact |
| Store.WithoutEmployeeConsistent | Migrations/20250428114702_Init.cs:123-128 | deleting an employee with its cascade keeps every foreign key and the unique index intact |
| Store.DataContext.Restore | Controllers/BookingApiController.cs:346 | a rollback returns every table to the snapshot and keeps the identity counters |
| Store.DataContext.InsertBooking | Repositories/BookingRepository.cs:31-36 | the new booking gets the next identity value; only the bookings table changes |
| Store.DataContext.UpdateBookingRow | Repositories/BookingRepository.cs:49-54 | writes the row when it exists and its customer exists; otherwise a concurrency or foreign-key error and no change |
| Store.DataContext.DeleteBookingRow | Repositories/BookingRepository.cs:44-45 | removes the booking and, by cascade, its join rows |
| Store.DataContext.SaveBookingCleanerChanges | Controllers/BookingApiController.cs:311-336 | one save of staged deletions and insertions; a staged deletion that is gone, a duplicate key, or a dangling key aborts it with no change |
| Store.DataContext.DeleteBookingWithRows | Controllers/BookingApiController.cs:228-238 | removes the booking and all of its join rows in one save |
| Store.DataContext.InsertEmployee | Services/EmployeeService.cs:69-78 | a null column or an unknown role id is refused with no change; otherwise the employee gets the next identity value |
| Store.DataContext.UpdateEmployeeRow | Services/EmployeeService.cs:148 | writes the row when it exists and its role exists; otherwise an error and no change |
| Store.DataContext.DeleteEmployeeRow | Services/EmployeeService.cs:43 | the store afterwards is `WithoutEmployee` of the store before |
| Store.DataContext.InsertUser | Services/EmployeeService.cs:82 | a duplicate id, a dangling employee id or a second account for the employee is refused with no change |
| Store.DataContext.UpdateUserNames | Services/EmployeeService.cs:129-130 | writes the account's user name and email and nothing else, or reports a concurrency error |
| Store.DataContext.DeleteUser | Services/EmployeeService.cs:36 | removes the account and its role grants, or reports a concurrency error |
| Store.DataContext.InsertUserRole | Services/EmployeeService.cs:93 | inserts the grant exactly when it is new and both ends exist; a repeated grant is a primary-key error and a missing end a foreign-key error on `AspNetUserRoles`, with no change |
| Store.DataContext.InsertAddress | Repositories/CustomerRepository.cs:36-37 | a null column is refused; otherwise the address gets the next identity value |
| Store.DataContext.InsertCustomer | Repositories/CustomerRepository.cs:39-41 | a null column or an unknown address id is refused; otherwise the customer gets the next identity value |
| Store.DataContext.SaveCustomerAndAddress | Services/CustomerService.cs:133 | one save of the tracked customer and address; it succeeds exactly when both rows exist and the foreign key resolves |
| Store.DataContext.DeleteCustomerRow | Services/CustomerService.cs:90 | the store afterwards is `WithoutCustomer` of the store before; a vanished row is a concurrency error with no change |
| Assignments.AddEach | Services/BookingService.cs:106-119 | the one-by-one add; where it stops, the stopping id's row is already present |
| Assignments.Replace | Services/BookingService.cs:188-206 | a row is in the end state exactly when it is requested for the booking, or belongs to another booking and was there before |
| Assignments.Requested | Services/BookingService.cs:108-119 | one row per listed id that names an employee, and no others |
| Assignments.AddEachBounds | Services/BookingService.cs:108-119 | the one-by-one add keeps every old row and adds only requested ones; with no conflict it ends at old plus requested |
| Assignments.AddEachRows | Services/BookingService.cs:108-119 | every row the add produced is old or requested |
| Assignments.AddableSnoc | Services/BookingService.cs:195-206 | a list is addable exactly when its prefix is and its last id, if an employee, adds a new row |
| Assignments.AddEachComplete | Services/BookingService.cs:108-119 | the add runs to the end exactly when the list is addable |
| Assignments.AddableAfterClear | Services/BookingService.cs:191-206 | after the booking's rows are removed, the add fails only on an employee listed twice |
| Assignments.ReplaceRows | Services/BookingService.cs:188-206 | after a replace the booking has exactly the requested rows and every other booking keeps its rows |
| Assignments.ReplaceIdempotent | Services/BookingService.cs:188-206 | replacing twice with the same list is replacing once |
| Assignments.ReplaceIsDiff | Controllers/BookingApiController.cs:307-336 | the replace is the old rows minus the booking's, plus the requested ones |
| Assignments.EmptyListClears | Services/BookingService.cs:188-192 | an empty, non-null list removes all of the booking's rows |
| Assignments.AddEachAfterClearIsReplace | Services/BookingService.cs:191-206 | the add after the clear ends in the replace state exactly when no employee is listed twice |
| Assignments.AddEachStops | Services/BookingService.cs:108-119 | once the add has failed, the rest of the list changes nothing |
| Assignments.AddEachFresh | Services/BookingService.cs:103-120 | into a booking with no rows, the add succeeds exactly when no employee is listed twice, and then adds exactly the requested rows |
| BookingRepository.GetByIdWithCustomer | Repositories/BookingRepository.cs:24-29 | the booking when it exists and its customer row exists, else none |
| BookingRepository.CreateAsync | Repositories/BookingRepository.cs:31-36 | an unknown customer throws the `Bookings` foreign-key error with no change; otherwise the returned id is the new booking's, previously unused |
| BookingRepository.DeleteAsync | Repositories/BookingRepository.cs:38-47 | false and no change without the booking; otherwise true, with the booking and its join rows removed |
| BookingRepository.UpdateAsync | Repositories/BookingRepository.cs:49-54 | writes the booking's row; a missing row or customer throws with no change |
| BookingRepository.GetBookingIdsByCleanerId | Repositories/BookingRepository.cs:76-82 | an id is returned exactly when the cleaner has a join row for it |
| BookingRepository.GetByCleanerIdWithCustomerAndAddress | Repositories/BookingRepository.cs:66-74 | exactly the bookings in the cleaner's join rows whose customer exists, unchanged |
| BookingRepository.LinkedBookingsExact | Repositories/BookingRepository.cs:66-82 | in a consistent store the result is exactly the cleaner's linked bookings |
| BookingRepository.CustomerExists | Repositories/BookingRepository.cs:84-87 | the query over the rows' ids; in a consistent store, exactly when the customer's key is present |
| BookingRepository.CleanerExists | Repositories/BookingRepository.cs:89-92 | the query over the employee rows' ids; in a consistent store, exactly when the employee's key is present |
| BookingRepository.AddBookingCleanerAsync | Repositories/BookingRepository.cs:94-103 | for a pair the context does not track: inserts exactly the pair; a stored pair is a primary-key violation and a dangling id a foreign-key violation, with no change |
| BookingRepository.RemoveBookingCleanerAsync | Repositories/BookingRepository.cs:105-115 | removes only that pair; without it nothing changes |
| BookingRepository.GetBookingCleanersByBookingId | Repositories/BookingRepository.cs:117-122 | exactly the booking's join rows |
| BookingRepository.RemoveBookingCleanersAsync | Repositories/BookingRepository.cs:124-128 | removes exactly the given rows; a row already gone aborts the save with no change |
| BookingService.TryParseTime | Services/BookingService.cs:90 | a null string never parses; otherwise the library parser decides |
| BookingService.FullName | Services/BookingService.cs:268 | first name, one space, last name |
| BookingService.AddCleaners | Services/BookingService.cs:108-119 | into a booking without rows, the rows end as `AddEach` of the list; it returns exactly when no employee repeats, and otherwise throws the tracking conflict on the repeated id, keeping the rows added before it |
| BookingService.CreateBookingAsync | Services/BookingService.cs:78-129 | an unknown customer or a bad time throws before any write; otherwise the booking is stored with the rows of `AddEach` and nothing else changes; the call returns its id exactly when no employee is listed twice, adding exactly the requested rows, and otherwise throws the tracking conflict |
| BookingService.UpdateBookingAsync | Services/BookingService.cs:152-216 | false for a missing booking; validation throws before any write; only supplied fields change; a null list keeps the rows, and a list replaces them, succeeding exactly when no employee is listed twice and otherwise throwing the tracking conflict |
| BookingService.DeleteBookingAsync | Services/BookingService.cs:131-150 | false and no change without the booking; otherwise its join rows and the booking are removed |
| BookingService.CleanerView | Services/BookingService.cs:261-270 | the booking's id, date and time, and the customer's first name, one space and last name |
| BookingService.GetCleanerBookings | Services/BookingService.cs:249-277 | an unknown cleaner throws; otherwise one view per linked booking, with id, date, time and customer name |
| BookingService.GetMyBookings | Services/BookingService.cs:278-313 | the same selection and projection for the signed-in employee's id |
| BookingService.CleanerBookingsExactlyLinked | Services/BookingService.cs:249-277 | in a consistent store the listing holds exactly the bookings linked to the cleaner |
| BookingApiController.StageCleaners | Controllers/BookingApiController.cs:183-201 | staging the list fails on the first employee listed twice; otherwise it stages exactly the requested rows |
| BookingApiController.CreateBooking | Controllers/BookingApiController.cs:142-212 | null body is 400; unknown customer 404 and bad time 400, both before any write; otherwise 201 with the new id and the requested rows, or 500 with the booking stored and no rows |
| BookingApiController.DeleteBooking | Controllers/BookingApiController.cs:217-247 | 404 and no change without the booking; otherwise the booking and its rows are removed |
| BookingApiController.UpdateBooking | Controllers/BookingApiController.cs:253-356 | null body 400; missing booking or customer 404; bad time 400; success replaces the fields and rows; any failure inside the transaction leaves the store unchanged |
| BookingApiController.FirstGuidAt | Controllers/BookingApiController.cs:40-47 | the position of the first claim that parses as a GUID, and none before it |
| BookingApiController.GetCurrentUserWithEmployee | Controllers/BookingApiController.cs:32-66 | the account named by the first GUID claim, and the employee it links to, when they exist |
| BookingApiController.AddressLine | Controllers/BookingApiController.cs:449-451 | "street, postal city" for an existing address, and "Address missing" exactly when there is none |
| BookingApiController.MyView | Controllers/BookingApiController.cs:440-451 | the booking's id, date and time, the customer's full name, and "Address missing" exactly when the customer's address row is absent |
| BookingApiController.MyBookings | Controllers/BookingApiController.cs:417-453 | one entry per booking linked to the employee, each with its customer's address line |
| BookingApiController.MyBookingsExactlyLinked | Controllers/BookingApiController.cs:417-428 | in a consistent store the listing is exactly the linked bookings, and empty without any |
| BookingApiController.GetMyBookings | Controllers/BookingApiController.cs:408-457 | 401 without an account and its employee; otherwise the employee's listing |
| Identity.UserNameErrors | Services/EmployeeService.cs:80-83 | no error exactly when the user name is non-empty, uses only allowed characters and is not another account's |
| Identity.UserNameErrorsIgnoreSelf | Services/EmployeeService.cs:129-130 | saving the account's own row does not change its validation |
| Identity.FindByEmail | Services/EmployeeService.cs:60-64 | a null email throws; otherwise an account exactly when one has that email |
| Identity.AccountUnique | Contexts/DataContext.cs:48-52 | an employee has at most one account |
| Identity.FindByEmployeeId | Services/EmployeeService.cs:33 | the employee's only account, exactly when there is one |
| Identity.CreateUser | Services/EmployeeService.cs:82-87 | a null password throws; policy errors, then user-name errors, then store refusals throw, each with no change; otherwise the account is stored |
| Identity.AddToRole | Services/EmployeeService.cs:90-94 | the role name is looked up by its normalised form; an existing grant fails and an unknown normalised name throws, naming it, both with no change; otherwise the grant of the normalised name is stored |
| Identity.DeleteUser | Services/EmployeeService.cs:36-41 | store errors and a vanished account fail with no change; otherwise the account and its grants go |
| Identity.UpdateUser | Services/EmployeeService.cs:129-130 | validation errors fail with no change; otherwise the user name and email are saved |
| Identity.SetEmail | Services/EmployeeService.cs:129 | returns the object with the new email; saves it when it validates and the account still exists, and otherwise fails with no change |
| Identity.SetUserName | Services/EmployeeService.cs:130 | returns the object with the new user name; saves it when it validates and the account still exists, and otherwise fails with no change |
| EmployeeRepository.GetById | Repositories/EmployeeRepository.cs:20-21 | exactly the employee stored under the id |
| EmployeeRepository.AddEmployeeAsync | Services/EmployeeService.cs:78 | a null column or unknown role is refused with no change; otherwise the employee gets the next id |
| EmployeeRepository.RemoveEmployeeAsync | Services/EmployeeService.cs:43 | the employee goes with its join rows, account and grants |
| EmployeeRepository.GetRoleNameById | Services/EmployeeService.cs:90 | the role's name exactly when the role exists |
| EmployeeRepository.SaveEmployee | Repositories/EmployeeRepository.cs:23-29 | writes the employee's row; a missing row or role throws with no change |
| EmployeeService.ErrorText | Services/EmployeeService.cs:102-103 | the message, followed by the inner message exactly when there is one |
| EmployeeService.RegistrationError | Services/EmployeeService.cs:104 | a failure whose message is "Fel vid registrering" followed by the error text |
| EmployeeService.RegisterEmployeeAsync | Services/EmployeeService.cs:58-106 | a taken email fails before the transaction; every failure inside it rolls back; success stores employee, account and grant together |
| EmployeeService.DeleteAsync | Services/EmployeeService.cs:25-45 | a missing employee or a refused account delete fails with no change; success removes the employee with its join rows, account and grants |
| EmployeeService.AfterEmailChange | Services/EmployeeService.cs:129-130 | the two identity saves touch only the one account |
| EmployeeService.ChangeAccountEmail | Services/EmployeeService.cs:129-132 | the account ends as `AfterEmailChange`; the change is accepted exactly when both saves validate |
| EmployeeService.Patched | Services/EmployeeService.cs:136-146 | each non-empty field replaces the old value; a supplied role id replaces the role |
| EmployeeService.UpdateEmployeeAsync | Services/EmployeeService.cs:108-150 | missing employee or account and a taken email fail with no change; a refused email change keeps whichever identity save passed; otherwise the patched employee is saved, or the role foreign key throws |
| CustomerRepository.GetCustomerById | Repositories/CustomerRepository.cs:21-29 | exactly the customer stored under the id, or null |
| CustomerRepository.GetCustomerAddressById | Services/CustomerService.cs:32 | exactly the address stored under the id, or null |
| CustomerRepository.CustomerExistByEmail | Services/CustomerService.cs:54 | a null email matches nothing, and every stored customer's own email is found |
| CustomerRepository.RegisterCustomerAsync | Repositories/CustomerRepository.cs:31-51 | the address is saved first and the customer points at its new id; any failure rolls both back and yields null |
| CustomerRepository.DeleteCustomer | Repositories/CustomerRepository.cs:13-16 | always throws NotImplemented |
| CustomerRepository.UpdateCustomer | Repositories/CustomerRepository.cs:53-56 | always throws NotImplemented |
| CustomerRepository.DeleteCustomerAsync | Services/CustomerService.cs:90 | true, with the store afterwards `WithoutCustomer`; a vanished row throws with no change |
| CustomerService.ToDto | Services/CustomerService.cs:37-46 | the customer's id, names and email with the address's street, city and postal code |
| CustomerService.RegisterCustomerAsync | Services/CustomerService.cs:52-79 | a known email fails with no write; an incomplete request throws with no change; otherwise both rows are stored and the DTO shows them |
| CustomerService.GetCustomerAsync | Services/CustomerService.cs:25-50 | as written: the address is looked up by the customer's own id |
| CustomerService.GetCustomer | Services/CustomerService.cs:25-50 | corrected: in a consistent store an existing customer always comes back with its own address |
| CustomerService.GetCustomerAsyncAgreesIff | Services/CustomerService.cs:32-36 | the as-written lookup agrees with the corrected one exactly when an address keyed by the customer id reads like the customer's own |
| CustomerService.GetCustomerAsyncMissesAddress | Services/CustomerService.cs:32-36 | a consistent store where the as-written lookup reports a missing address and the corrected one succeeds |
| CustomerService.RemoveCustomerAsync | Services/CustomerService.cs:81-94 | a missing customer fails with no change; otherwise the store afterwards is `WithoutCustomer` |
| CustomerService.PatchedCustomer | Services/CustomerService.cs:104-117 | each non-empty name and email replaces the old value; id and address id stay |
| CustomerService.PatchedAddress | Services/CustomerService.cs:119-131 | each non-empty street, city and postal code replaces the old value |
| CustomerService.UpdateCustomerAsync | Services/CustomerService.cs:96-147 | a missing customer fails; a non-empty email that any customer has, the customer's own included, fails with no change; otherwise customer and address are patched and saved together |

## Left out

- **Library parsers and formatters.** `TimeOnly.TryParse`, `Guid.TryParse` and the date and time `ToString` calls are the parameters `parse` and `isGuid`. Dates and times are carried as values, not as formatted text.
- **Async, logging and the HTTP layer.** Async and await, logging and the HTTP plumbing are left out. The controller actions return an `ActionResult` datatype.
- **Row counts.** SaveChanges row counts are not modelled. `UpdateAsync` returns whether a row was written, and its callers ignore that.
- **Identity library internals.** Password hashing, security and concurrency stamps, and the normalisation of user names and emails are left out. User names and emails are compared exactly.
- **Role-name normaliser.** The lookup normaliser the identity library applies to role names is the parameter `normalize`; by default it upper-cases.
- Identity.FindByEmail: picks one of several accounts with the same email. The library's single-or-default query throws when two accounts share a normalised email; without email normalisation the model does not capture that exception.
- Identity.SetEmail: does not model that the library also clears `EmailConfirmed`, because the workflows never read that column.
- **Customer email column.** `CustomerEntity.cs` declares no email property, but the `Add CustomerEmail` migration adds the column and the service reads and writes `customer.CustomerEmail`. `Customer.email` is modelled from those uses.
- **Database inner messages.** The inner exception texts of a failed save (`Entities.InnerMessage`) are shortened stand-ins. SQL Server's texts name the constraint, database, table and key values, which the model does not carry.
- **Integer width.** Ids and identity counters are unbounded integers. The C# `int` ids would overflow after 2^31 - 1 rows; that is not modelled.
- **Password policy.** The password policy is the parameter `passwordErrors`.
- **Identity store refusals.** Failures the identity store reports for a concurrent change are the parameter `storeErrors`.
- Identity.UserNameErrors: checks only the default user-name rules. Non-default validator options are not modelled.
- **Concurrency.** Requests run one at a time. `DbConcurrency` stands for a row that vanished between a read and a save.
- **Read-only listings.** `GetAllBookingsAsync`, `GetBookingByIdAsync`, `GetCustomerBookingsAsync`, the controller's `GetAllBookings`, `GetBookingById` and `GetCustomerBookings`, and the `GetAll*` methods of the repositories and services are not modelled. They are read-only listings outside the write workflows.
- **Listings as maps.** Lists are modelled as maps keyed by id, so their order is not modelled.
- **Delete and re-add in one save.** Deleting a join row and adding the same pair back within one save is modelled as a net no-op. This is how Entity Framework merges the two changes.
- **Repository methods without bodies.** `CustomerExistByEmail`, `GetCustomerAddressById`, `DeleteCustomerAsync`, `SaveCustomerAsync`, `AddEmployeeAsync`, `RemoveEmployeeAsync` and `GetRoleNameById` are called but have no body in the repositories. They are modelled as single queries, inserts, deletes and saves. `SaveCustomerAsync` is `Store.DataContext.SaveCustomerAndAddress`.
- **Missing DTO classes.** `BookingUpdateDto`, `RegisterCleanerDto`, `UpdateEmployeeDto` and `UpdateCustomerDto` are not part of this model's sources. Their fields are inferred from how the code uses them, with every reference-typed field nullable.
- **Unreachable branches.** The `"Kunden finns inte i databasen"` branch of `RemoveCustomerAsync` cannot be taken. The customer was just read, so the delete returns true. The `NullReferenceException` at the end of `UpdateCustomerAsync` cannot be taken either, because the address foreign key always resolves. Both branches are written, and the model shows they are not taken.
- **Out-of-scope parts.** The authentication services, `FakeAuthService`, the other controllers, the migrations tooling and the dependency-injection setup are outside the modelled core.

## Findings

| source | as written | input that shows it | evidently intended | confidence | as-written member | corrected member |
|---|---|---|---|---|---|---|
| Services/CustomerService.cs:32 | the address is fetched with `GetCustomerAddressById(customer.Id)`, the customer's own key | customer 1 with `AddressId` 2 and no address row with key 1: the call fails with "Address saknas" although the customer's address exists | fetch by `customer.AddressId`, as `UpdateCustomerAsync` does at line 119 | high; not executed | CustomerService.GetCustomerAsync, CustomerService.GetCustomerAsyncMissesAddress | CustomerService.GetCustomer |
