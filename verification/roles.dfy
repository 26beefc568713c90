/** The four account roles, the slugs that name them in forms and flashed
    session data, and the dashboard each role lands on. */
module Roles {
  import opened Common
  import opened Http

  datatype Role = Student | Instructor | SalesStaff | AllAroundStaff

  /** The slug a role travels under: the `role` form field and the `role`
      value flashed after registration. */
  function Slug(r: Role): string {
    match r
    case Student => "student"
    case Instructor => "instructor"
    case SalesStaff => "sales_staff"
    case AllAroundStaff => "all_around_staff"
  }

  /** The values the `role` field of the password-setup form may take. */
  const RoleSlugs: set<string> := {"student", "instructor", "sales_staff", "all_around_staff"}

  /** Reads a slug back; anything that is not one of the four slugs names no role. */
  function RoleOfSlug(slug: string): (r: Option<Role>)
    ensures r.Some? <==> slug in RoleSlugs
    ensures r.Some? ==> Slug(r.value) == slug
  {
    if slug == "student" then Some(Student)
    else if slug == "instructor" then Some(Instructor)
    else if slug == "sales_staff" then Some(SalesStaff)
    else if slug == "all_around_staff" then Some(AllAroundStaff)
    else None
  }

  /** Reading a slug back recovers the role, and every role's slug is accepted. */
  lemma SlugRoundTrip(r: Role)
    ensures RoleOfSlug(Slug(r)) == Some(r)
    ensures Slug(r) in RoleSlugs
  {
  }

  /** The dashboard route of each role. */
  function DashboardOf(r: Role): (d: Route)
    ensures d.StudentDashboard? || d.InstructorDashboard? || d.SalesDashboard? || d.StaffDashboard?
  {
    match r
    case Student => StudentDashboard
    case Instructor => InstructorDashboard
    case SalesStaff => SalesDashboard
    case AllAroundStaff => StaffDashboard
  }

  /** Distinct roles land on distinct dashboards. */
  lemma DashboardOfInjective(a: Role, b: Role)
    ensures DashboardOf(a) == DashboardOf(b) ==> a == b
  {
  }

  /** The slug-to-route table of the login and password-setup controllers,
      falling back to `home` for a slug outside the table. */
  function DashboardRoute(slug: string): (d: Route)
    ensures d == Home <==> slug !in RoleSlugs
    ensures forall r: Role :: d == DashboardOf(r) <==> slug == Slug(r)
  {
    match RoleOfSlug(slug)
    case None => Home
    case Some(r) => DashboardOf(r)
  }
}
