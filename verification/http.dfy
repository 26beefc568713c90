/** What a request handler can see and produce once the framework is taken
    away: the named routes, the session (authenticated user and flashed
    registration data), the error bag, and the three response shapes the
    controllers use (redirect to a route, redirect back, render a view). */
module Http {
  import opened Common

  type UserId = nat

  /** The named routes of the application, plus `AdminDashboard`, which the
      login controller redirects to but which is not among the declared routes. */
  datatype Route =
    | Login | LoginProcess | Register
    | RegisterStudentForm | RegisterStudentProcess
    | RegisterInstructorForm | RegisterInstructorProcess
    | RegisterSalesForm | RegisterSalesProcess
    | RegisterStaffForm | RegisterStaffProcess
    | AccountCreate | AccountCreateProcess
    | Logout
    | StudentDashboard | InstructorDashboard | SalesDashboard | StaffDashboard
    | Home
    | AdminDashboard

  /** The request fields an error can be attached to. `Error` is the generic
      `error` key the controllers use for non-field failures. */
  datatype Key =
    | UserEmail | UserPassword | RoleField
    | FirstName | LastName | MiddleName | Suffix | Phone | DateOfBirth | Gender
    | InstrumentId | SkillLevel | MusicGoals
    | Nationality | AddressLine1 | AddressLine2 | City | Province | PostalCode | Country
    | EmergencyContactName | EmergencyContactRelationship | EmergencyContactPhone
    | EducationLevel | MusicDegree | YearsOfExperience | LanguagesSpoken | TeachingStyle | Bio
    | Certification(index: nat)
    | Specializations | SpecializationItem(index: nat) | PrimarySpecialization
    | Error

  /** Why a request was refused: a validation rule, or a failure a controller reports itself. */
  datatype Reason =
    | Required | EmailFormat | Unique | Exists | MaxLength(limit: nat) | PatternMismatch
    | NotIn | DateFormat | NotInteger | MinValue(bound: int) | MinLength(least: nat) | Confirmed
    | RegistrationFailed | RegistrationFailedWith(message: string) | NoAccount | IncorrectPassword | NoRole
    | AlreadyActivated | InvalidSession | AccountNotFound

  datatype Problem = Problem(key: Key, reason: Reason)

  /** The pages a handler renders itself. */
  datatype View = Welcome | CreateAccountPage(email: string, role: string)

  datatype Response =
    | Redirect(to: Route, errors: seq<Problem>)
    | Back(errors: seq<Problem>)
    | Render(view: View)

  /** The session: the authenticated user, and the email and role flashed by
      a registration for the password-setup page. */
  datatype Session = Session(user: Option<UserId>, flashEmail: Option<string>, flashRole: Option<string>)

  /** A session with nobody signed in and nothing flashed. */
  const Guest: Session := Session(None, None, None)
}
