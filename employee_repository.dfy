/**
 * The employee repository. `GetByIdAsync` and `SaveAsync` are in the source;
 * adding, removing and the role-name lookup are called by the service but
 * their bodies are not part of the repository, so they carry the plain
 * meaning of their names: one insert, one delete, one key lookup.
 */
module EmployeeRepository {
  import opened Wrappers
  import opened Entities
  import opened Store

  /** `GetByIdAsync`: the employee whose id is `id`, or none. */
  function GetById(db: DataContext, id: int): (r: Option<Employee>)
    reads db
    ensures r.Some? <==> id in db.employees
    ensures r.Some? ==> r.value == db.employees[id]
  {
    if id in db.employees then Some(db.employees[id]) else None
  }

  /** `AddEmployeeAsync`: inserts one employee and saves; the row gets the next identity value. */
  method AddEmployeeAsync(db: DataContext, firstName: Option<string>, lastName: Option<string>,
                          email: Option<string>, phone: Option<string>, roleId: int) returns (r: Raised<Employee>)
    requires db.Valid()
    modifies db
    ensures db.Valid() && NotBelow(db.Next(), old(db.Next()))
    ensures r.Threw? ==> db.State() == old(db.State())
    ensures (firstName.None? || lastName.None? || email.None? || phone.None?) ==>
      r == Threw(DbUpdate(NotNullViolation(Employees)))
    ensures firstName.Some? && lastName.Some? && email.Some? && phone.Some? && roleId !in old(db.roles) ==>
      r == Threw(DbUpdate(ForeignKeyViolation(Employees)))
    ensures firstName.Some? && lastName.Some? && email.Some? && phone.Some? && roleId in old(db.roles) ==>
      && r == Returned(Employee(old(db.Next()).employee, firstName.value, lastName.value, email.value, phone.value, roleId))
      && r.value.id !in old(db.employees)
      && db.State() == old(db.State()).(employees := old(db.employees)[r.value.id := r.value])
  {
    r := db.InsertEmployee(firstName, lastName, email, phone, roleId);
  }

  /** `RemoveEmployeeAsync`: deletes the employee; the delete cascades to its join rows and account. */
  method RemoveEmployeeAsync(db: DataContext, id: int)
    requires db.Valid() && id in db.employees
    modifies db
    ensures db.Valid() && db.Next() == old(db.Next())
    ensures db.State() == WithoutEmployee(old(db.State()), id)
  {
    var _ := db.DeleteEmployeeRow(id);
  }

  /** `GetRoleNameById`: the name of the application role with that id, or none. */
  function GetRoleNameById(db: DataContext, roleId: int): (r: Option<string>)
    reads db
    ensures r.Some? <==> roleId in db.roles
    ensures r.Some? ==> r.value == db.roles[roleId].name
  {
    if roleId in db.roles then Some(db.roles[roleId].name) else None
  }

  /** `SaveAsync` after the tracked employee was changed: its row is written back. */
  method SaveEmployee(db: DataContext, e: Employee) returns (r: Raised<()>)
    requires db.Valid()
    modifies db
    ensures db.Valid() && db.Next() == old(db.Next())
    ensures r.Threw? ==> db.State() == old(db.State())
    ensures e.id !in old(db.employees) ==> r == Threw(DbConcurrency)
    ensures e.id in old(db.employees) && e.roleId !in old(db.roles) ==> r == Threw(DbUpdate(ForeignKeyViolation(Employees)))
    ensures e.id in old(db.employees) && e.roleId in old(db.roles) ==>
      r == Returned(()) && db.State() == old(db.State()).(employees := old(db.employees)[e.id := e])
  {
    r := db.UpdateEmployeeRow(e);
  }
}
