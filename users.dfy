/** `ApplicationUser`: the identity record a claim's lecturer and each approver are. */
module Users {
  import opened Wrappers

  datatype UserRole = Lecturer | ProgrammeCoordinator | AcademicManager | HR

  /**
   * A user account. Only `isActive` is ever changed by the code modelled
   * here; the identity and profile fields are fixed once the account exists.
   */
  class ApplicationUser {
    const id: string
    const firstName: string
    const lastName: string
    const email: Option<string>
    const department: Option<string>
    var isActive: bool

    constructor (id: string, firstName: string, lastName: string, email: Option<string>, department: Option<string>)
      ensures this.id == id && this.firstName == firstName && this.lastName == lastName
      ensures this.email == email && this.department == department
      ensures isActive
    {
      this.id := id;
      this.firstName := firstName;
      this.lastName := lastName;
      this.email := email;
      this.department := department;
      isActive := true;
    }
  }

  /** A navigation's department: a missing user has none, as a left join yields null. */
  function DepartmentOf(u: ApplicationUser?): Option<string> {
    if u == null then None else u.department
  }
}
