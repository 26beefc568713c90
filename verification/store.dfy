/** The database tables the authentication flow reads and writes: user
    accounts keyed by email, the four role tables keyed by user id, the
    instructor-specialization link table, and the lookup tables the
    validation rules consult. */
module Store {
  import opened Common
  import opened Http
  import opened Forms
  import opened Roles

  // ---------------------------------------------------------------------------
  // Password hashing
  // ---------------------------------------------------------------------------

  /** A stored password hash. The framework's hash is one-way and salted; the
      model keeps only what the flow relies on: equal passwords check equal
      and different passwords do not. */
  datatype Digest = Digest(secret: string)

  function Hash(plain: string): Digest { Digest(plain) }

  /** `Hash::check(plain, stored)`: true when `stored` is a hash of `plain`; an
      account whose password was never set (`null`) matches nothing. */
  function PasswordMatches(plain: string, stored: Option<Digest>): (ok: bool)
    ensures stored.None? ==> !ok
  {
    stored.Some? && stored.value == Hash(plain)
  }

  /** A password checks against a stored hash exactly when it is the password
      that was hashed. */
  lemma PasswordMatchesHashOf(plain: string, original: string)
    ensures PasswordMatches(plain, Some(Hash(original))) <==> plain == original
  {
  }

  // ---------------------------------------------------------------------------
  // Rows
  // ---------------------------------------------------------------------------

  /** A `user_account` row. Its email is the key of the account map. */
  datatype Account = Account(
    userId: UserId,
    password: Option<Digest>,
    isSuperAdmin: bool,
    lastLogin: Option<nat>)

  /** A `student` row: the submitted fields plus the columns the controller fills in. */
  datatype StudentRow = StudentRow(
    details: StudentForm,
    statusId: nat,
    enrolledOn: nat,
    country: string,
    isActive: bool)

  /** An `instructor` row with its own auto-increment `instructor_id`. */
  datatype InstructorRow = InstructorRow(
    instructorId: nat,
    profile: InstructorProfile,
    hiredOn: nat,
    employmentStatus: string,
    isAvailable: bool,
    isActive: bool)

  /** A `sales_staff` or `all_around_staff` row. */
  datatype StaffRow = StaffRow(
    details: StaffForm,
    hiredOn: nat,
    employmentStatus: string,
    country: string,
    isActive: bool)

  /** An `instructor_specialization` row. */
  datatype SpecializationRow = SpecializationRow(instructorId: nat, specializationId: nat, isPrimary: bool)

  /** A `student_status` row. */
  datatype StatusRow = StatusRow(statusId: nat, name: string)

  /** The tables. `nextUserId` and `nextInstructorId` are the auto-increment
      counters of `user_account` and `instructor`; `instruments` and
      `specializations` are the ids the `exists` rules look up. */
  datatype Store = Store(
    accounts: map<string, Account>,
    students: map<UserId, StudentRow>,
    instructors: map<UserId, InstructorRow>,
    salesStaff: map<UserId, StaffRow>,
    allAroundStaff: map<UserId, StaffRow>,
    instructorSpecializations: seq<SpecializationRow>,
    studentStatuses: seq<StatusRow>,
    instruments: set<nat>,
    specializations: set<nat>,
    nextUserId: UserId,
    nextInstructorId: nat)

  /** What a request handler leaves behind: the tables, the session, the response. */
  datatype Outcome = Outcome(store: Store, session: Session, response: Response)

  /** The registered emails, which the `unique` and `exists` rules consult. */
  function Emails(s: Store): set<string> { s.accounts.Keys }

  // ---------------------------------------------------------------------------
  // Role tables
  // ---------------------------------------------------------------------------

  /** The role table of `r` has a row for user `u`. */
  predicate InTable(s: Store, r: Role, u: UserId) {
    match r
    case Student => u in s.students
    case Instructor => u in s.instructors
    case SalesStaff => u in s.salesStaff
    case AllAroundStaff => u in s.allAroundStaff
  }

  /** The `email` column of user `u`'s row in the role table of `r`. */
  function RowEmail(s: Store, r: Role, u: UserId): string
    requires InTable(s, r, u)
  {
    match r
    case Student => s.students[u].details.email
    case Instructor => s.instructors[u].profile.email
    case SalesStaff => s.salesStaff[u].details.email
    case AllAroundStaff => s.allAroundStaff[u].details.email
  }

  /** The order in which the role tables are searched. */
  function Rank(r: Role): nat {
    match r
    case Student => 0
    case Instructor => 1
    case SalesStaff => 2
    case AllAroundStaff => 3
  }

  /** `getUserRole`: the first role table, in the order student, instructor,
      sales staff, all-around staff, that has a row for the user. */
  function GetUserRole(s: Store, u: UserId): (r: Option<Role>)
    ensures r.None? ==> forall role: Role :: !InTable(s, role, u)
    ensures r.Some? ==> InTable(s, r.value, u)
    ensures r.Some? ==> forall role: Role :: Rank(role) < Rank(r.value) ==> !InTable(s, role, u)
  {
    if u in s.students then Some(Student)
    else if u in s.instructors then Some(Instructor)
    else if u in s.salesStaff then Some(SalesStaff)
    else if u in s.allAroundStaff then Some(AllAroundStaff)
    else None
  }

  // ---------------------------------------------------------------------------
  // Integrity
  // ---------------------------------------------------------------------------

  /** User ids are below the counter and belong to one account each. */
  ghost predicate AccountIdsValid(s: Store) {
    && (forall e :: e in s.accounts ==> s.accounts[e].userId < s.nextUserId)
    && (forall e, e' :: e in s.accounts && e' in s.accounts && e != e' ==>
          s.accounts[e].userId != s.accounts[e'].userId)
  }

  /** Every role row belongs to the account with the row's email, and a user
      has a row in at most one role table. */
  ghost predicate RoleRowsValid(s: Store) {
    && (forall r, u :: InTable(s, r, u) ==>
          RowEmail(s, r, u) in s.accounts && s.accounts[RowEmail(s, r, u)].userId == u)
    && (forall r, r', u :: InTable(s, r, u) && InTable(s, r', u) ==> r == r')
  }

  /** Instructor ids are below their counter and distinct, and every
      specialization link names an instructor id that has been issued. */
  ghost predicate InstructorIdsValid(s: Store) {
    && (forall u :: u in s.instructors ==> s.instructors[u].instructorId < s.nextInstructorId)
    && (forall u, u' :: u in s.instructors && u' in s.instructors && u != u' ==>
          s.instructors[u].instructorId != s.instructors[u'].instructorId)
    && (forall i :: 0 <= i < |s.instructorSpecializations| ==>
          s.instructorSpecializations[i].instructorId < s.nextInstructorId)
  }

  /** The invariants the registration flow keeps. */
  ghost predicate Valid(s: Store) {
    AccountIdsValid(s) && RoleRowsValid(s) && InstructorIdsValid(s)
  }

  /** In a valid store a user sits in one role table at most, so the search
      order of `getUserRole` does not matter: it finds exactly the user's table. */
  lemma GetUserRoleFindsTheTable(s: Store, u: UserId, r: Role)
    requires Valid(s)
    ensures GetUserRole(s, u) == Some(r) <==> InTable(s, r, u)
  {
    if InTable(s, r, u) {
      var found := GetUserRole(s, u);
      assert found.Some?;
      assert InTable(s, found.value, u);
    }
  }

  /** A fresh user id has no row in any role table of a valid store. */
  lemma FreshUserHasNoRole(s: Store)
    requires Valid(s)
    ensures forall r :: !InTable(s, r, s.nextUserId)
  {
  }

  /** Changing an account's other columns (password, last login) while it
      keeps its user id keeps every invariant. */
  lemma SameUserKeepsValid(s: Store, email: string, a: Account)
    requires Valid(s) && email in s.accounts && a.userId == s.accounts[email].userId
    ensures Valid(s.(accounts := s.accounts[email := a]))
  {
    var t := s.(accounts := s.accounts[email := a]);
    assert forall e :: e in t.accounts <==> e in s.accounts;
    assert forall e :: e in t.accounts ==> t.accounts[e].userId == s.accounts[e].userId;
    assert forall r, u :: InTable(t, r, u) == InTable(s, r, u);
    forall r, u | InTable(t, r, u)
      ensures RowEmail(t, r, u) in t.accounts && t.accounts[RowEmail(t, r, u)].userId == u
    {
      assert RowEmail(t, r, u) == RowEmail(s, r, u);
    }
  }

  // ---------------------------------------------------------------------------
  // Student status lookup
  // ---------------------------------------------------------------------------

  /** The `status_id` of the first `student_status` row named "Active", if any. */
  function ActiveStatusId(rows: seq<StatusRow>): (id: Option<nat>)
    ensures id.None? <==> forall i :: 0 <= i < |rows| ==> rows[i].name != "Active"
    ensures id.Some? ==> exists i :: 0 <= i < |rows| && rows[i].name == "Active" && rows[i].statusId == id.value
                                   && forall j :: 0 <= j < i ==> rows[j].name != "Active"
  {
    if rows == [] then None
    else if rows[0].name == "Active" then Some(rows[0].statusId)
    else
      var rest := ActiveStatusId(rows[1..]);
      assert forall j :: 1 <= j < |rows| ==> rows[j] == rows[1..][j - 1];
      rest
  }
}
