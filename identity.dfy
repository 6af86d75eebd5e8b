/**
 * The parts of the identity library's user manager the employee workflows
 * call, over the store's account and grant tables. Password hashing, security
 * stamps and the normalisation of user names and emails are not modelled;
 * role names are normalised by the parameter `normalize`, and the password
 * policy is the parameter `passwordErrors`, the errors it reports for a password.
 */
module Identity {
  import opened Wrappers
  import opened Entities
  import opened Store

  /** The outcome the user manager reports instead of throwing. */
  datatype IdentityResult = Succeeded | Failed(errors: seq<string>)

  /** The library's default set of characters a user name may contain. */
  const AllowedUserNameCharacters: string := "abcdefghijklmnopqrstuvwxyzABCDEFGHIJKLMNOPQRSTUVWXYZ0123456789-._@+"

  /** The error the store reports when the row to save has gone. */
  const ConcurrencyFailure: string := "Optimistic concurrency failure, object has been modified."

  /** Some account has exactly this email. */
  predicate EmailTaken(users: map<UserId, ApplicationUser>, email: string) {
    exists u | u in users :: users[u].email == Some(email)
  }

  /** An account other than `self` has exactly this user name. */
  predicate UserNameTaken(users: map<UserId, ApplicationUser>, self: UserId, userName: string) {
    exists u | u in users && u != self :: users[u].userName == Some(userName)
  }

  /**
   * The user validator: a user name must be present, non-empty, made of
   * allowed characters, and not held by another account.
   */
  function UserNameErrors(users: map<UserId, ApplicationUser>, u: ApplicationUser): (r: seq<string>)
    ensures r == [] <==>
      && u.userName.Some? && u.userName.value != ""
      && (forall i | 0 <= i < |u.userName.value| :: u.userName.value[i] in AllowedUserNameCharacters)
      && !UserNameTaken(users, u.id, u.userName.value)
  {
    var name := u.userName.GetOr("");
    if name == "" || exists i | 0 <= i < |name| :: name[i] !in AllowedUserNameCharacters then
      ["Username '" + name + "' is invalid, can only contain letters or digits."]
    else if UserNameTaken(users, u.id, name) then
      ["Username '" + name + "' is already taken."]
    else []
  }

  /** `FindByEmailAsync`: a null email throws; otherwise an account with that email, if any. */
  method FindByEmail(db: DataContext, email: Option<string>) returns (r: Raised<Option<ApplicationUser>>)
    requires db.Valid()
    ensures email.None? ==> r == Threw(ArgumentNull("email"))
    ensures email.Some? ==> r.Returned? && (r.value.Some? <==> EmailTaken(db.users, email.value))
    ensures r.Returned? && r.value.Some? ==>
      r.value.value.id in db.users && db.users[r.value.value.id] == r.value.value && r.value.value.email == email
  {
    if email.None? {
      return Threw(ArgumentNull("email"));
    }
    if !EmailTaken(db.users, email.value) {
      return Returned(None);
    }
    var u :| u in db.users && db.users[u].email == email;
    r := Returned(Some(db.users[u]));
  }

  /** The account linked to an employee, when there is one. */
  ghost function AccountOf(t: Tables, employeeId: int): UserId
    requires UsersOf(t.users, employeeId) != {}
  {
    var u :| u in UsersOf(t.users, employeeId); u
  }

  /** The unique index on the employee id: at most one account per employee. */
  lemma AccountUnique(t: Tables, employeeId: int)
    requires Consistent(t) && UsersOf(t.users, employeeId) != {}
    ensures UsersOf(t.users, employeeId) == {AccountOf(t, employeeId)}
  {
    var u := AccountOf(t, employeeId);
    forall v | v in UsersOf(t.users, employeeId) ensures v == u {
      assert t.users[v].employeeId == t.users[u].employeeId;
    }
  }

  /** `Users.FirstOrDefaultAsync(u => u.EmployeeId == id)`: the employee's account, if any. */
  method FindByEmployeeId(db: DataContext, employeeId: int) returns (u: Option<ApplicationUser>)
    requires db.Valid()
    ensures u.Some? <==> UsersOf(db.users, employeeId) != {}
    ensures u.Some? ==> u.value.id == AccountOf(db.State(), employeeId) && u.value == db.users[u.value.id]
    ensures u.Some? ==> u.value.employeeId == employeeId
  {
    if UsersOf(db.users, employeeId) == {} {
      return None;
    }
    AccountUnique(db.State(), employeeId);
    var id :| id in UsersOf(db.users, employeeId);
    u := Some(db.users[id]);
  }

  /**
   * `CreateAsync(user, password)`: a null password throws; the password policy
   * and then the user validator may refuse; otherwise the account is saved,
   * and a database refusal throws.
   */
  method CreateUser(db: DataContext, u: ApplicationUser, password: Option<string>,
                    passwordErrors: string -> seq<string>) returns (r: Raised<IdentityResult>)
    requires db.Valid()
    modifies db
    ensures db.Valid() && db.Next() == old(db.Next())
    ensures !(r == Returned(Succeeded)) ==> db.State() == old(db.State())
    ensures password.None? ==> r == Threw(ArgumentNull("password"))
    ensures password.Some? && passwordErrors(password.value) != [] ==> r == Returned(Failed(passwordErrors(password.value)))
    ensures password.Some? && passwordErrors(password.value) == [] && UserNameErrors(old(db.users), u) != [] ==>
      r == Returned(Failed(UserNameErrors(old(db.users), u)))
    ensures password.Some? && passwordErrors(password.value) == [] && UserNameErrors(old(db.users), u) == [] ==>
      && (u.id in old(db.users) ==> r == Threw(DbUpdate(PrimaryKeyViolation(AspNetUsers))))
      && (u.id !in old(db.users) && u.employeeId !in old(db.employees) ==>
            r == Threw(DbUpdate(ForeignKeyViolation(AspNetUsers))))
      && (u.id !in old(db.users) && u.employeeId in old(db.employees) && UsersOf(old(db.users), u.employeeId) != {} ==>
            r == Threw(DbUpdate(UniqueIndexViolation(AspNetUsers))))
      && (u.id !in old(db.users) && u.employeeId in old(db.employees) && UsersOf(old(db.users), u.employeeId) == {} ==>
            r == Returned(Succeeded) && db.State() == old(db.State()).(users := old(db.users)[u.id := u]))
  {
    if password.None? {
      return Threw(ArgumentNull("password"));
    }
    var policy := passwordErrors(password.value);
    if policy != [] {
      return Returned(Failed(policy));
    }
    var invalid := UserNameErrors(db.users, u);
    if invalid != [] {
      return Returned(Failed(invalid));
    }
    var saved := db.InsertUser(u);
    if saved.Threw? {
      return Threw(saved.ex);
    }
    r := Returned(Succeeded);
  }

  /**
   * `AddToRoleAsync`: the role name is normalised by the lookup normaliser
   * `normalize` (upper-casing, by default) and the identity roles and grants
   * are keyed by the normalised name. An existing grant is a failed result; a
   * normalised name the identity store does not know throws, naming the
   * normalised name; the updated account is validated and saved with its new grant.
   */
  method AddToRole(db: DataContext, u: ApplicationUser, roleName: string, normalize: string -> string)
    returns (r: Raised<IdentityResult>)
    requires db.Valid()
    modifies db
    ensures db.Valid() && db.Next() == old(db.Next())
    ensures !(r == Returned(Succeeded)) ==> db.State() == old(db.State())
    ensures UserRole(u.id, normalize(roleName)) in old(db.userRoles) ==>
      r == Returned(Failed(["User already in role '" + roleName + "'."]))
    ensures UserRole(u.id, normalize(roleName)) !in old(db.userRoles) && normalize(roleName) !in old(db.identityRoles) ==>
      r == Threw(RoleNotFound(normalize(roleName)))
    ensures UserRole(u.id, normalize(roleName)) !in old(db.userRoles) && normalize(roleName) in old(db.identityRoles) ==>
      && (UserNameErrors(old(db.users), u) != [] ==> r == Returned(Failed(UserNameErrors(old(db.users), u))))
      && (UserNameErrors(old(db.users), u) == [] && u.id !in old(db.users) ==> r == Returned(Failed([ConcurrencyFailure])))
      && (UserNameErrors(old(db.users), u) == [] && u.id in old(db.users) ==>
            r == Returned(Succeeded)
            && db.State() == old(db.State()).(userRoles := old(db.userRoles) + {UserRole(u.id, normalize(roleName))}))
  {
    var key := normalize(roleName);
    var grant := UserRole(u.id, key);
    if grant in db.userRoles {
      return Returned(Failed(["User already in role '" + roleName + "'."]));
    }
    if key !in db.identityRoles {
      return Threw(RoleNotFound(key));
    }
    var invalid := UserNameErrors(db.users, u);
    if invalid != [] {
      return Returned(Failed(invalid));
    }
    if u.id !in db.users {
      return Returned(Failed([ConcurrencyFailure]));
    }
    var _ := db.InsertUserRole(grant);
    r := Returned(Succeeded);
  }

  /**
   * `DeleteAsync(user)`: deletes the account and its grants. `storeErrors` are
   * the errors the store reports when another request changed the account
   * first; an account that is gone is the same failure.
   */
  method DeleteUser(db: DataContext, u: ApplicationUser, storeErrors: seq<string>) returns (r: IdentityResult)
    requires db.Valid()
    modifies db
    ensures db.Valid() && db.Next() == old(db.Next())
    ensures storeErrors != [] ==> r == Failed(storeErrors) && db.State() == old(db.State())
    ensures storeErrors == [] && u.id !in old(db.users) ==> r == Failed([ConcurrencyFailure]) && db.State() == old(db.State())
    ensures storeErrors == [] && u.id in old(db.users) ==>
      && r == Succeeded
      && db.State() == old(db.State()).(users := old(db.users) - {u.id},
                                        userRoles := old(db.userRoles) - GrantsOf(old(db.userRoles), {u.id}))
  {
    if storeErrors != [] {
      return Failed(storeErrors);
    }
    var deleted := db.DeleteUser(u.id);
    if deleted.Threw? {
      return Failed([ConcurrencyFailure]);
    }
    r := Succeeded;
  }

  /**
   * Validating and saving an account whose user name or email the caller has
   * changed in memory (`UpdateUserAsync`); the changed object stays with the caller.
   */
  method UpdateUser(db: DataContext, u: ApplicationUser) returns (r: IdentityResult)
    requires db.Valid()
    modifies db
    ensures db.Valid() && db.Next() == old(db.Next())
    ensures UserNameErrors(old(db.users), u) != [] ==>
      r == Failed(UserNameErrors(old(db.users), u)) && db.State() == old(db.State())
    ensures UserNameErrors(old(db.users), u) == [] && u.id !in old(db.users) ==>
      r == Failed([ConcurrencyFailure]) && db.State() == old(db.State())
    ensures UserNameErrors(old(db.users), u) == [] && u.id in old(db.users) ==>
      && r == Succeeded
      && db.State() == old(db.State()).(users := old(db.users)[u.id := old(db.users)[u.id].(userName := u.userName, email := u.email)])
  {
    var invalid := UserNameErrors(db.users, u);
    if invalid != [] {
      return Failed(invalid);
    }
    var saved := db.UpdateUserNames(u.id, u.userName, u.email);
    if saved.Threw? {
      return Failed([ConcurrencyFailure]);
    }
    r := Succeeded;
  }

  /** `SetEmailAsync`: sets the email on the object, then validates and saves it. */
  method SetEmail(db: DataContext, u: ApplicationUser, email: Option<string>)
    returns (r: IdentityResult, changed: ApplicationUser)
    requires db.Valid()
    modifies db
    ensures changed == u.(email := email)
    ensures db.Valid() && db.Next() == old(db.Next())
    ensures UserNameErrors(old(db.users), changed) != [] ==>
      r == Failed(UserNameErrors(old(db.users), changed)) && db.State() == old(db.State())
    ensures UserNameErrors(old(db.users), changed) == [] && u.id !in old(db.users) ==>
      r == Failed([ConcurrencyFailure]) && db.State() == old(db.State())
    ensures UserNameErrors(old(db.users), changed) == [] && u.id in old(db.users) ==>
      && r == Succeeded
      && db.State() == old(db.State()).(users := old(db.users)[u.id := old(db.users)[u.id].(userName := u.userName, email := email)])
  {
    changed := u.(email := email);
    r := UpdateUser(db, changed);
  }

  /** `SetUserNameAsync`: sets the user name on the object, then validates and saves it. */
  method SetUserName(db: DataContext, u: ApplicationUser, userName: Option<string>)
    returns (r: IdentityResult, changed: ApplicationUser)
    requires db.Valid()
    modifies db
    ensures changed == u.(userName := userName)
    ensures db.Valid() && db.Next() == old(db.Next())
    ensures UserNameErrors(old(db.users), changed) != [] ==>
      r == Failed(UserNameErrors(old(db.users), changed)) && db.State() == old(db.State())
    ensures UserNameErrors(old(db.users), changed) == [] && u.id !in old(db.users) ==>
      r == Failed([ConcurrencyFailure]) && db.State() == old(db.State())
    ensures UserNameErrors(old(db.users), changed) == [] && u.id in old(db.users) ==>
      && r == Succeeded
      && db.State() == old(db.State()).(users := old(db.users)[u.id := old(db.users)[u.id].(userName := userName, email := u.email)])
  {
    changed := u.(userName := userName);
    r := UpdateUser(db, changed);
  }

  /** The validator ignores the account's own row, so saving that row does not change its verdict. */
  lemma UserNameErrorsIgnoreSelf(users: map<UserId, ApplicationUser>, u: ApplicationUser, v: ApplicationUser)
    ensures UserNameErrors(users[u.id := v], u) == UserNameErrors(users, u)
  {
    var name := u.userName.GetOr("");
    if UserNameTaken(users[u.id := v], u.id, name) {
      var w :| w in users[u.id := v] && w != u.id && users[u.id := v][w].userName == Some(name);
      assert w in users && users[w].userName == Some(name);
    }
    if UserNameTaken(users, u.id, name) {
      var w :| w in users && w != u.id && users[w].userName == Some(name);
      assert w in users[u.id := v] && users[u.id := v][w].userName == Some(name);
    }
  }
}
