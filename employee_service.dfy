/**
 * The employee service: registration (employee row, then its identity
 * account, then a best-effort role grant, in one transaction), delete
 * (account first, then the employee) and the partial update.
 */
module EmployeeService {
  import opened Wrappers
  import opened Entities
  import opened Store
  import opened Results
  import opened Identity
  import opened EmployeeRepository
  import Text

  /** The error text a caught exception contributes: its message, then the inner exception's message if any. */
  function ErrorText(ex: Exception): (r: string)
    ensures |Message(ex)| <= |r| && r[..|Message(ex)|] == Message(ex)
    ensures InnerMessage(ex).None? <==> r == Message(ex)
    ensures InnerMessage(ex).Some? ==> r[|Message(ex)|..] == " (InnerExeption: " + InnerMessage(ex).value + ") "
  {
    var m, inner := Message(ex), InnerMessage(ex);
    if inner.None? then m
    else
      var tail := " (InnerExeption: " + inner.value + ") ";
      assert (m + tail)[..|m|] == m && (m + tail)[|m|..] == tail;
      m + tail
  }

  /** The failed result for an exception caught inside the registration transaction. */
  function RegistrationError(ex: Exception): (r: ServiceResultOf<Employee>)
    ensures !r.success && r.data == None && r.message == Some("Fel vid registrering" + ErrorText(ex))
  {
    FailWith("Fel vid registrering" + ErrorText(ex), None)
  }

  /** All four NOT NULL columns of the employee row are supplied. */
  predicate ColumnsPresent(dto: RegisterCleanerDto) {
    dto.firstName.Some? && dto.lastName.Some? && dto.email.Some? && dto.phone.Some?
  }

  /**
   * `RegisterEmployeeAsync`. A null email throws out of the first lookup and a
   * taken email fails before the transaction. Inside it every exception and
   * every refused account rolls back; a role whose name is empty is not granted.
   * `newUserId` is the GUID the new account is created with; `normalize` is
   * the identity library's lookup normaliser for role names.
   */
  method RegisterEmployeeAsync(db: DataContext, dto: RegisterCleanerDto, newUserId: UserId,
                               passwordErrors: string -> seq<string>, normalize: string -> string) returns (r: Raised<ServiceResultOf<Employee>>)
    requires db.Valid()
    modifies db
    ensures db.Valid() && NotBelow(db.Next(), old(db.Next()))
    ensures !(r.Returned? && r.value.success) ==> db.State() == old(db.State())
    ensures dto.email.None? ==> r == Threw(ArgumentNull("email"))
    ensures dto.email.Some? && EmailTaken(old(db.users), dto.email.value) ==>
      r == Returned(FailWith("Det finns redan en användare med den e-mailen", None))
    ensures dto.email.Some? && !EmailTaken(old(db.users), dto.email.value) ==>
      var id := old(db.Next()).employee;
      var employee := Employee(id, dto.firstName.GetOr(""), dto.lastName.GetOr(""), dto.email.value,
                               dto.phone.GetOr(""), dto.roleId);
      var user := ApplicationUser(newUserId, dto.email, dto.email, id);
      && (!ColumnsPresent(dto) ==> r == Returned(RegistrationError(DbUpdate(NotNullViolation(Employees)))))
      && (ColumnsPresent(dto) && dto.roleId !in old(db.roles) ==> r == Returned(RegistrationError(DbUpdate(ForeignKeyViolation(Employees)))))
      && (ColumnsPresent(dto) && dto.roleId in old(db.roles) ==>
            var roleName := old(db.roles)[dto.roleId].name;
            && (dto.password.None? ==> r == Returned(RegistrationError(ArgumentNull("password"))))
            && (dto.password.Some? && (passwordErrors(dto.password.value) != [] || UserNameErrors(old(db.users), user) != []) ==>
                  r == Returned(FailWith("Kunde inte skapa en användare", None)))
            && (dto.password.Some? && passwordErrors(dto.password.value) == [] && UserNameErrors(old(db.users), user) == [] ==>
                  && (newUserId in old(db.users) ==> r == Returned(RegistrationError(DbUpdate(PrimaryKeyViolation(AspNetUsers)))))
                  && (newUserId !in old(db.users) && roleName != "" && normalize(roleName) !in old(db.identityRoles) ==>
                        r == Returned(RegistrationError(RoleNotFound(normalize(roleName)))))
                  && (newUserId !in old(db.users) && (roleName == "" || normalize(roleName) in old(db.identityRoles)) ==>
                        && r == Returned(OkWith(employee, Some("Anställd registrerad")))
                        && db.State() == old(db.State()).(
                             employees := old(db.employees)[id := employee],
                             users := old(db.users)[newUserId := user],
                             userRoles := if roleName == "" then old(db.userRoles)
                                          else old(db.userRoles) + {UserRole(newUserId, normalize(roleName))}))))
  {
    var existing := FindByEmail(db, dto.email);
    if existing.Threw? {
      return Threw(existing.ex);
    }
    if existing.value.Some? {
      return Returned(FailWith("Det finns redan en användare med den e-mailen", None));
    }
    var snapshot := db.State();
    var added := AddEmployeeAsync(db, dto.firstName, dto.lastName, dto.email, dto.phone, dto.roleId);
    if added.Threw? {
      db.Restore(snapshot);
      return Returned(RegistrationError(added.ex));
    }
    var employee := added.value;
    var user := ApplicationUser(newUserId, dto.email, dto.email, employee.id);
    assert UsersOf(db.users, employee.id) == {};
    var created := CreateUser(db, user, dto.password, passwordErrors);
    if created.Threw? {
      db.Restore(snapshot);
      return Returned(RegistrationError(created.ex));
    }
    if created.value.Failed? {
      db.Restore(snapshot);
      return Returned(FailWith("Kunde inte skapa en användare", None));
    }
    var roleName := GetRoleNameById(db, dto.roleId);
    if !IsNullOrEmpty(roleName) {
      UserNameErrorsIgnoreSelf(old(db.users), user, user);
      assert UserRole(newUserId, normalize(roleName.value)) !in db.userRoles;
      var granted := AddToRole(db, user, roleName.value, normalize);
      if granted.Threw? {
        db.Restore(snapshot);
        return Returned(RegistrationError(granted.ex));
      }
    }
    r := Returned(OkWith(employee, Some("Anställd registrerad")));
  }

  /**
   * `DeleteAsync`: a missing employee fails; the linked account is deleted
   * first and, when the identity store refuses, the employee is kept; then the
   * employee row goes, with its join rows.
   */
  method DeleteAsync(db: DataContext, id: int, storeErrors: seq<string>) returns (r: ServiceResult)
    requires db.Valid()
    modifies db
    ensures db.Valid() && db.Next() == old(db.Next())
    ensures id !in old(db.employees) ==> r == Fail("Anställd hittades inte", None) && db.State() == old(db.State())
    ensures id in old(db.employees) && UsersOf(old(db.users), id) != {} && storeErrors != [] ==>
      r == Fail("Kunde inte ta bort användaren", Some(storeErrors)) && db.State() == old(db.State())
    ensures id in old(db.employees) && (UsersOf(old(db.users), id) == {} || storeErrors == []) ==>
      r == Ok(Some("Anställd borttagen")) && db.State() == WithoutEmployee(old(db.State()), id)
    ensures r.success ==>
      id !in db.employees && UsersOf(db.users, id) == {} && RowsOfCleaner(db.bookingCleaners, id) == {}
  {
    var employee := GetById(db, id);
    if employee.None? {
      return Fail("Anställd hittades inte", None);
    }
    ghost var t0 := db.State();
    var user := FindByEmployeeId(db, id);
    if user.Some? {
      AccountUnique(t0, id);
      var result := DeleteUser(db, user.value, storeErrors);
      if result.Failed? {
        return Fail("Kunde inte ta bort användaren", Some(result.errors));
      }
      assert UsersOf(db.users, id) == {};
      assert db.State() == t0.(users := t0.users - UsersOf(t0.users, id),
                               userRoles := t0.userRoles - GrantsOf(t0.userRoles, UsersOf(t0.users, id)));
    }
    RemoveEmployeeAsync(db, employee.value.id);
    assert db.State() == WithoutEmployee(t0, id);
    r := Ok(Some("Anställd borttagen"));
  }

  /** Whether the update changes the email: a non-empty one that differs from the account's. */
  predicate ChangesEmail(dto: UpdateEmployeeDto, account: ApplicationUser) {
    !IsNullOrEmpty(dto.email) && dto.email != account.email
  }

  /**
   * The account table after `SetEmailAsync` and then `SetUserNameAsync` with the
   * same address: each save happens when its own validation passes, and the
   * second one writes the in-memory object, email included.
   */
  function AfterEmailChange(users: map<UserId, ApplicationUser>, id: UserId, email: Option<string>): (r: map<UserId, ApplicationUser>)
    requires id in users
    ensures r.Keys == users.Keys
    ensures forall k | k in users && k != id :: r[k] == users[k]
  {
    var withEmail := users[id].(email := email);
    var renamed := withEmail.(userName := email);
    if UserNameErrors(users, renamed) == [] then users[id := renamed]
    else if UserNameErrors(users, withEmail) == [] then users[id := withEmail]
    else users
  }

  /** Both identity saves of an email change pass their validation. */
  predicate EmailChangeAccepted(users: map<UserId, ApplicationUser>, id: UserId, email: Option<string>)
    requires id in users
  {
    UserNameErrors(users, users[id].(email := email)) == []
    && UserNameErrors(users, users[id].(email := email, userName := email)) == []
  }

  /**
   * The two identity calls of an email change, `SetEmailAsync` then
   * `SetUserNameAsync` on the object the first one returned; `accepted` is
   * false when either reported errors.
   */
  method ChangeAccountEmail(db: DataContext, user: ApplicationUser, email: Option<string>) returns (accepted: bool)
    requires db.Valid() && user.id in db.users && db.users[user.id] == user
    modifies db
    ensures db.Valid() && db.Next() == old(db.Next())
    ensures db.State() == old(db.State()).(users := AfterEmailChange(old(db.users), user.id, email))
    ensures accepted <==> EmailChangeAccepted(old(db.users), user.id, email)
  {
    ghost var users0 := db.users;
    var emailResult, withEmail := SetEmail(db, user, email);
    UserNameErrorsIgnoreSelf(users0, withEmail.(userName := email), withEmail);
    var userNameResult, _ := SetUserName(db, withEmail, email);
    accepted := !(userNameResult.Failed? || emailResult.Failed?);
  }

  /** The employee after the update's field assignments: each non-empty field replaces the old one. */
  function Patched(e: Employee, dto: UpdateEmployeeDto, emailChanged: bool): (r: Employee)
    ensures r.id == e.id
    ensures r.email == (if emailChanged then dto.email.GetOr(e.email) else e.email)
    ensures r.firstName == (if IsNullOrEmpty(dto.firstName) then e.firstName else dto.firstName.value)
    ensures r.lastName == (if IsNullOrEmpty(dto.lastName) then e.lastName else dto.lastName.value)
    ensures r.phone == (if IsNullOrEmpty(dto.phone) then e.phone else dto.phone.value)
    ensures r.roleId == dto.roleId.GetOr(e.roleId)
  {
    Employee(e.id,
             if IsNullOrEmpty(dto.firstName) then e.firstName else dto.firstName.value,
             if IsNullOrEmpty(dto.lastName) then e.lastName else dto.lastName.value,
             if emailChanged then dto.email.GetOr(e.email) else e.email,
             if IsNullOrEmpty(dto.phone) then e.phone else dto.phone.value,
             dto.roleId.GetOr(e.roleId))
  }

  /**
   * `UpdateEmployeeAsync`: the employee and its account must exist; a changed
   * email must be free and is written to the account as email and user name
   * (each save on its own, so one may persist while the other is refused);
   * the employee row is saved last, and a database refusal there escapes.
   */
  method UpdateEmployeeAsync(db: DataContext, id: int, dto: UpdateEmployeeDto) returns (r: Raised<ServiceResultOf<Employee>>)
    requires db.Valid()
    modifies db
    ensures db.Valid() && db.Next() == old(db.Next())
    ensures id !in old(db.employees) ==>
      && r == Returned(FailWith("Anställd med anställningsnummer " + Text.IntToString(id) + " ", None))
      && db.State() == old(db.State())
    ensures id in old(db.employees) && UsersOf(old(db.users), id) == {} ==>
      r == Returned(FailWith("Anställd hittades inte i Identity", None)) && db.State() == old(db.State())
    ensures id in old(db.employees) && UsersOf(old(db.users), id) != {} ==>
      var uid := AccountOf(old(db.State()), id);
      var change := ChangesEmail(dto, old(db.users)[uid]);
      var users := if change then AfterEmailChange(old(db.users), uid, dto.email) else old(db.users);
      var updated := Patched(old(db.employees)[id], dto, change);
      && uid in old(db.users)
      && (change && EmailTaken(old(db.users), dto.email.value) ==>
            r == Returned(FailWith("Den nya eposten används redan", None)) && db.State() == old(db.State()))
      && (change && !EmailTaken(old(db.users), dto.email.value) && !EmailChangeAccepted(old(db.users), uid, dto.email) ==>
            && r == Returned(FailWith("Det gick inte att uppdatera e-postadressen.", None))
            && db.State() == old(db.State()).(users := users))
      && (!change || (!EmailTaken(old(db.users), dto.email.value) && EmailChangeAccepted(old(db.users), uid, dto.email)) ==>
            && (updated.roleId !in old(db.roles) ==>
                  r == Threw(DbUpdate(ForeignKeyViolation(Employees))) && db.State() == old(db.State()).(users := users))
            && (updated.roleId in old(db.roles) ==>
                  && r == Returned(OkWith(updated, Some("Anställd uppdaterad.")))
                  && db.State() == old(db.State()).(users := users, employees := old(db.employees)[id := updated])))
  {
    var found := GetById(db, id);
    if found.None? {
      return Returned(FailWith("Anställd med anställningsnummer " + Text.IntToString(id) + " ", None));
    }
    var employee := found.value;
    var user := FindByEmployeeId(db, employee.id);
    if user.None? {
      return Returned(FailWith("Anställd hittades inte i Identity", None));
    }
    var change := !IsNullOrEmpty(dto.email) && dto.email != user.value.email;
    if change {
      var existing := FindByEmail(db, dto.email);
      if existing.value.Some? {
        return Returned(FailWith("Den nya eposten används redan", None));
      }
      var accepted := ChangeAccountEmail(db, user.value, dto.email);
      if !accepted {
        return Returned(FailWith("Det gick inte att uppdatera e-postadressen.", None));
      }
    }
    employee := Patched(employee, dto, change);
    var saved := SaveEmployee(db, employee);
    if saved.Threw? {
      return Threw(saved.ex);
    }
    r := Returned(OkWith(employee, Some("Anställd uppdaterad.")));
  }
}
