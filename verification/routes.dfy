/** The route table: which named routes exist, the middleware group each
    belongs to, and the `/` (home) route that sends a signed-in user to the
    dashboard of their role. */
module Routes {
  import opened Common
  import opened Http
  import opened Roles
  import opened Store

  /** The middleware in front of a route: `guest` (signed-out visitors only),
      `auth` (signed-in users only), or none. */
  datatype Guard = GuestOnly | AuthOnly | Open

  /** The group a named route is declared in: login, registration and
      password setup for guests, logout and the role dashboards for signed-in
      users, `/` for everybody; `AdminDashboard` is not declared. */
  function GuardOf(r: Route): (g: Option<Guard>)
    ensures g == Some(GuestOnly) <==>
              r in {Login, LoginProcess, Register,
                    RegisterStudentForm, RegisterStudentProcess, RegisterInstructorForm, RegisterInstructorProcess,
                    RegisterSalesForm, RegisterSalesProcess, RegisterStaffForm, RegisterStaffProcess,
                    AccountCreate, AccountCreateProcess}
    ensures g == Some(AuthOnly) <==> r == Logout || exists role :: DashboardOf(role) == r
    ensures g == Some(Open) <==> r == Home
    ensures g.None? <==> r == AdminDashboard
  {
    match r
    case Login | LoginProcess | Register
       | RegisterStudentForm | RegisterStudentProcess
       | RegisterInstructorForm | RegisterInstructorProcess
       | RegisterSalesForm | RegisterSalesProcess
       | RegisterStaffForm | RegisterStaffProcess
       | AccountCreate | AccountCreateProcess => Some(GuestOnly)
    case Logout => Some(AuthOnly)
    case StudentDashboard => assert DashboardOf(Student) == r; Some(AuthOnly)
    case InstructorDashboard => assert DashboardOf(Instructor) == r; Some(AuthOnly)
    case SalesDashboard => assert DashboardOf(SalesStaff) == r; Some(AuthOnly)
    case StaffDashboard => assert DashboardOf(AllAroundStaff) == r; Some(AuthOnly)
    case Home => Some(Open)
    case AdminDashboard => None
  }

  predicate Declared(r: Route) { GuardOf(r).Some? }

  /** What the middleware does with a request for `r`: `None` lets it through to
      the handler; otherwise the response it answers with instead. The `guest`
      middleware sends a signed-in user to `/`, the `auth` middleware sends a
      visitor to the login page. */
  function Admit(sess: Session, r: Route): (res: Option<Response>)
    requires Declared(r)
    ensures res.None? <==> GuardOf(r) == Some(Open) || (GuardOf(r) == Some(GuestOnly) <==> sess.user.None?)
    ensures res.Some? && sess.user.Some? ==> res.value == Redirect(Home, [])
    ensures res.Some? && sess.user.None? ==> res.value == Redirect(Login, [])
  {
    match GuardOf(r).value
    case Open => None
    case GuestOnly => if sess.user.Some? then Some(Redirect(Home, [])) else None
    case AuthOnly => if sess.user.None? then Some(Redirect(Login, [])) else None
  }

  /** Apart from `/`, every declared route is reachable either signed out or
      signed in, never both and never neither: the registration, password
      setup and login routes only signed out, the dashboards and logout only
      signed in. */
  lemma GuestAndAuthPartition(r: Route, visitor: Session, member: Session)
    requires Declared(r) && r != Home
    requires visitor.user.None? && member.user.Some?
    ensures Admit(visitor, r).None? != Admit(member, r).None?
    ensures Admit(visitor, r).None? <==> GuardOf(r) == Some(GuestOnly)
  {
  }

  /** The password-setup routes sit in the guest group: a signed-in user
      cannot reach them, so a second password cannot be set from a session. */
  lemma PasswordSetupIsGuestOnly(member: Session)
    requires member.user.Some?
    ensures Admit(member, AccountCreate) == Some(Redirect(Home, []))
    ensures Admit(member, AccountCreateProcess) == Some(Redirect(Home, []))
  {
  }

  /** Every dashboard a role lands on is declared, and only signed-in users pass. */
  lemma DashboardsNeedSignIn(r: Role, sess: Session)
    ensures Declared(DashboardOf(r)) && GuardOf(DashboardOf(r)) == Some(AuthOnly)
    ensures Admit(sess, DashboardOf(r)).None? <==> sess.user.Some?
  {
  }

  /** The route the login controller names for an administrator is the only
      route it redirects to that the table does not declare. */
  lemma AdminDashboardUndeclared(slug: string)
    ensures !Declared(AdminDashboard)
    ensures Declared(DashboardRoute(slug))
  {
  }

  /** The `/` route: a signed-in user with a row in a role table is sent to
      that role's dashboard, tables searched student, instructor, sales staff,
      all-around staff; anybody else sees the welcome page. */
  function HomeRedirect(s: Store, sess: Session): (res: Response)
    ensures res == Render(Welcome) <==>
            sess.user.None? || forall r: Role :: !InTable(s, r, sess.user.value)
    ensures res.Redirect? ==> res.errors == [] && Declared(res.to) && GuardOf(res.to) == Some(AuthOnly)
  {
    if sess.user.Some? then
      var u := sess.user.value;
      if u in s.students then assert InTable(s, Student, u); Redirect(StudentDashboard, [])
      else if u in s.instructors then assert InTable(s, Instructor, u); Redirect(InstructorDashboard, [])
      else if u in s.salesStaff then assert InTable(s, SalesStaff, u); Redirect(SalesDashboard, [])
      else if u in s.allAroundStaff then assert InTable(s, AllAroundStaff, u); Redirect(StaffDashboard, [])
      else Render(Welcome)
    else Render(Welcome)
  }

  /** The home route and the login controller agree: for a signed-in user the
      home route redirects exactly where `getUserRole` followed by the
      dashboard table would. */
  lemma HomeAgreesWithGetUserRole(s: Store, u: UserId)
    ensures GetUserRole(s, u).None? ==> HomeRedirect(s, Session(Some(u), None, None)) == Render(Welcome)
    ensures GetUserRole(s, u).Some? ==>
              HomeRedirect(s, Session(Some(u), None, None)) ==
              Redirect(DashboardRoute(Slug(GetUserRole(s, u).value)), [])
  {
    if GetUserRole(s, u).Some? {
      SlugRoundTrip(GetUserRole(s, u).value);
    }
  }

  /** The home route reads only the signed-in user, not the flashed data. */
  lemma HomeIgnoresFlash(s: Store, sess: Session, sess': Session)
    requires sess.user == sess'.user
    ensures HomeRedirect(s, sess) == HomeRedirect(s, sess')
  {
  }
}
