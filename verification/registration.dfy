/** The registration controller: the four role registrations, the
    password-setup page and the password-setup submission.

    Each registration validates its form (no password is asked for), then, in
    one database transaction, creates a `user_account` row without a password
    and the row in its role table, and redirects to the password-setup page
    with the email and role slug flashed in the session. Any failure inside the
    transaction rolls it back. `fault` stands for a database statement that
    throws, which the model cannot see; `now` is the request time. */
module Registration {
  import opened Common
  import opened Http
  import opened Forms
  import opened Roles
  import opened Validation
  import opened Store

  /** The single `error` problem a rolled-back student or staff registration
      reports: a fixed message. */
  const Failed: seq<Problem> := [Problem(Error, RegistrationFailed)]

  /** The single `error` problem a rolled-back instructor registration
      reports: the exception's own message follows the fixed prefix. */
  function FailedWith(message: string): seq<Problem> {
    [Problem(Error, RegistrationFailedWith(message))]
  }

  // ---------------------------------------------------------------------------
  // Shapes of an outcome
  // ---------------------------------------------------------------------------

  /** The request is refused: tables and session untouched, the problems sent
      back to the form. */
  predicate Refused(s: Store, sess: Session, o: Outcome, ps: seq<Problem>) {
    o == Outcome(s, sess, Back(ps))
  }

  /** The lookup tables the validation rules read are left alone. */
  predicate SameLookups(s: Store, t: Store) {
    && t.studentStatuses == s.studentStatuses
    && t.instruments == s.instruments
    && t.specializations == s.specializations
  }

  /** `s` without user `u`'s row in the role table of `r`. */
  function WithoutRow(s: Store, r: Role, u: UserId): (t: Store)
    ensures forall r', u' :: InTable(t, r', u') <==> InTable(s, r', u') && (r' != r || u' != u)
  {
    match r
    case Student => s.(students := s.students - {u})
    case Instructor => s.(instructors := s.instructors - {u})
    case SalesStaff => s.(salesStaff := s.salesStaff - {u})
    case AllAroundStaff => s.(allAroundStaff := s.allAroundStaff - {u})
  }

  /** `t` is `s` with one new user, `s.nextUserId`, whose account is `email`
      (no password, not an administrator) and whose single new role row, in the
      table of `role` and carrying the same email, is the only change to the
      role tables: every other row keeps its contents. Only an instructor
      registration touches the specialization links and the instructor counter. */
  ghost predicate AddsUser(s: Store, t: Store, email: string, role: Role) {
    && email !in s.accounts
    && t.accounts == s.accounts[email := Account(s.nextUserId, None, false, None)]
    && t.nextUserId == s.nextUserId + 1
    && (forall r, u :: InTable(t, r, u) <==> InTable(s, r, u) || (r == role && u == s.nextUserId))
    && (forall r, u :: InTable(s, r, u) && u != s.nextUserId ==> RowEmail(t, r, u) == RowEmail(s, r, u))
    && InTable(t, role, s.nextUserId) && RowEmail(t, role, s.nextUserId) == email
    && SameLookups(s, t)
    && WithoutRow(t, role, s.nextUserId) ==
       WithoutRow(s, role, s.nextUserId).(accounts := t.accounts, nextUserId := t.nextUserId,
                                           instructorSpecializations := t.instructorSpecializations,
                                           nextInstructorId := t.nextInstructorId)
    && (role != Instructor ==>
          t.instructorSpecializations == s.instructorSpecializations && t.nextInstructorId == s.nextInstructorId)
  }

  /** A successful registration of `email` under `role`. */
  ghost predicate Registered(s: Store, sess: Session, o: Outcome, email: string, role: Role) {
    && AddsUser(s, o.store, email, role)
    && o.session == sess.(flashEmail := Some(email), flashRole := Some(Slug(role)))
    && o.response == Redirect(AccountCreate, [])
  }

  /** The new account and the session flash every registration produces. */
  function WithAccount(s: Store, email: string): Store {
    s.(accounts := s.accounts[email := Account(s.nextUserId, None, false, None)],
       nextUserId := s.nextUserId + 1)
  }

  function Flash(sess: Session, email: string, role: Role): Session {
    sess.(flashEmail := Some(email), flashRole := Some(Slug(role)))
  }

  /** Adding a new account and one row under its id in a single role table is
      adding a user. One lemma per role table, as the tables differ in row type. */
  lemma AddsStudent(s: Store, email: string, row: StudentRow)
    requires email !in s.accounts && row.details.email == email
    ensures AddsUser(s, WithAccount(s, email).(students := s.students[s.nextUserId := row]), email, Student)
  {
  }

  lemma AddsInstructor(s: Store, p: InstructorProfile, specs: seq<nat>, primary: nat, now: nat)
    requires p.email !in s.accounts
    ensures AddsUser(s, WithInstructor(s, p, specs, primary, now), p.email, Instructor)
  {
  }

  lemma AddsSalesStaff(s: Store, email: string, row: StaffRow)
    requires email !in s.accounts && row.details.email == email
    ensures AddsUser(s, WithAccount(s, email).(salesStaff := s.salesStaff[s.nextUserId := row]), email, SalesStaff)
  {
  }

  lemma AddsAllAroundStaff(s: Store, email: string, row: StaffRow)
    requires email !in s.accounts && row.details.email == email
    ensures AddsUser(s, WithAccount(s, email).(allAroundStaff := s.allAroundStaff[s.nextUserId := row]),
                     email, AllAroundStaff)
  {
  }

  // ---------------------------------------------------------------------------
  // Student
  // ---------------------------------------------------------------------------

  /** The "Active" student status is found and its id is not PHP-falsy (0). */
  predicate ActiveStatusUsable(s: Store) {
    ActiveStatusId(s.studentStatuses).Some? && ActiveStatusId(s.studentStatuses).value != 0
  }

  /** `registerStudent`. */
  function RegisterStudent(s: Store, sess: Session, c: Checks, f: StudentForm, now: nat, fault: bool)
    : (o: Outcome)
    ensures !StudentAccepted(c, f, Emails(s), s.instruments) ==>
              Refused(s, sess, o, StudentProblems(c, f, Emails(s), s.instruments))
    ensures StudentAccepted(c, f, Emails(s), s.instruments) && (fault || !ActiveStatusUsable(s)) ==>
              Refused(s, sess, o, Failed)
    ensures StudentAccepted(c, f, Emails(s), s.instruments) && !fault && ActiveStatusUsable(s) ==>
              && Registered(s, sess, o, f.email, Student)
              && o.store.students[s.nextUserId] ==
                   StudentRow(f, ActiveStatusId(s.studentStatuses).value, now, "Philippines", true)
  {
    var ps := StudentProblems(c, f, Emails(s), s.instruments);
    if ps != [] then Outcome(s, sess, Back(ps))
    else if fault then Outcome(s, sess, Back(Failed))
    else match ActiveStatusId(s.studentStatuses)
      case None => Outcome(s, sess, Back(Failed))
      case Some(status) =>
        if status == 0 then Outcome(s, sess, Back(Failed))
        else
          var row := StudentRow(f, status, now, "Philippines", true);
          AddsStudent(s, f.email, row);
          var t := WithAccount(s, f.email).(students := s.students[s.nextUserId := row]);
          Outcome(t, Flash(sess, f.email, Student), Redirect(AccountCreate, []))
  }

  // ---------------------------------------------------------------------------
  // Instructor
  // ---------------------------------------------------------------------------

  /** The `instructor_specialization` rows the registration inserts, one per
      ticked id in the order submitted, flagged primary when the id is the
      chosen primary one. */
  function SpecializationRows(instructorId: nat, specs: seq<nat>, primary: nat): (rows: seq<SpecializationRow>)
    ensures |rows| == |specs|
    ensures forall i :: 0 <= i < |rows| ==>
              rows[i].instructorId == instructorId && rows[i].specializationId == specs[i]
              && (rows[i].isPrimary <==> specs[i] == primary)
  {
    if specs == [] then []
    else [SpecializationRow(instructorId, specs[0], specs[0] == primary)]
         + SpecializationRows(instructorId, specs[1..], primary)
  }

  /** How many rows are flagged primary. */
  function PrimaryCount(rows: seq<SpecializationRow>): nat {
    if rows == [] then 0 else (if rows[0].isPrimary then 1 else 0) + PrimaryCount(rows[1..])
  }

  /** How often `x` occurs in `xs`. */
  function Occurrences(xs: seq<nat>, x: nat): nat {
    if xs == [] then 0 else (if xs[0] == x then 1 else 0) + Occurrences(xs[1..], x)
  }

  predicate Distinct(xs: seq<nat>) {
    forall i, j :: 0 <= i < j < |xs| ==> xs[i] != xs[j]
  }

  /** Each occurrence of the primary id among the ticked ids yields one primary row. */
  lemma {:induction false} PrimaryRowsMatchOccurrences(instructorId: nat, specs: seq<nat>, primary: nat)
    ensures PrimaryCount(SpecializationRows(instructorId, specs, primary)) == Occurrences(specs, primary)
  {
    if specs != [] {
      var rows := SpecializationRows(instructorId, specs, primary);
      assert rows[1..] == SpecializationRows(instructorId, specs[1..], primary);
      PrimaryRowsMatchOccurrences(instructorId, specs[1..], primary);
    }
  }

  /** An id that occurs in a list without repetitions occurs exactly once. */
  lemma {:induction false} OccursOnce(xs: seq<nat>, x: nat)
    requires Distinct(xs) && x in xs
    ensures Occurrences(xs, x) == 1
  {
    if xs[0] == x {
      NotOccurring(xs[1..], x);
    } else {
      assert x in xs[1..];
      OccursOnce(xs[1..], x);
    }
  }

  /** An id absent from a list occurs zero times. */
  lemma {:induction false} NotOccurring(xs: seq<nat>, x: nat)
    requires x !in xs
    ensures Occurrences(xs, x) == 0
  {
    if xs != [] {
      NotOccurring(xs[1..], x);
    }
  }

  /** When the ticked ids are distinct and the primary one is among them (as
      the form guarantees and validation checks), exactly one inserted row is
      flagged primary. */
  lemma ExactlyOnePrimary(instructorId: nat, specs: seq<nat>, primary: nat)
    requires Distinct(specs) && primary in specs
    ensures PrimaryCount(SpecializationRows(instructorId, specs, primary)) == 1
  {
    PrimaryRowsMatchOccurrences(instructorId, specs, primary);
    OccursOnce(specs, primary);
  }

  /** `registerInstructor`. The instructor row takes the next `instructor_id`;
      the certifications are validated but not stored. Unlike the other three
      registrations, a rolled-back one reports the exception's message, which
      is `message` when `fault` says that a statement threw. */
  function RegisterInstructor(s: Store, sess: Session, c: Checks, f: InstructorForm, now: nat,
                              fault: bool, message: string)
    : (o: Outcome)
    ensures !InstructorAccepted(c, f, Emails(s), s.specializations) ==>
              Refused(s, sess, o, InstructorProblems(c, f, Emails(s), s.specializations))
    ensures InstructorAccepted(c, f, Emails(s), s.specializations) && fault ==>
              Refused(s, sess, o, FailedWith(message))
    ensures InstructorAccepted(c, f, Emails(s), s.specializations) && !fault ==>
              && Registered(s, sess, o, f.profile.email, Instructor)
              && o.store.instructors[s.nextUserId] ==
                   InstructorRow(s.nextInstructorId, f.profile, now, "active", true, true)
              && o.store.nextInstructorId == s.nextInstructorId + 1
              && o.store.instructorSpecializations ==
                   s.instructorSpecializations
                   + SpecializationRows(s.nextInstructorId, f.specializations, f.primary.value)
  {
    var ps := InstructorProblems(c, f, Emails(s), s.specializations);
    if ps != [] then Outcome(s, sess, Back(ps))
    else if fault then Outcome(s, sess, Back(FailedWith(message)))
    else
      AddsInstructor(s, f.profile, f.specializations, f.primary.value, now);
      Outcome(WithInstructor(s, f.profile, f.specializations, f.primary.value, now),
              Flash(sess, f.profile.email, Instructor), Redirect(AccountCreate, []))
  }

  /** The tables after a successful instructor registration: the account, the
      instructor row under the next `instructor_id`, and its specialization links. */
  function WithInstructor(s: Store, p: InstructorProfile, specs: seq<nat>, primary: nat, now: nat): Store {
    var iid := s.nextInstructorId;
    WithAccount(s, p.email).(
      instructors := s.instructors[s.nextUserId := InstructorRow(iid, p, now, "active", true, true)],
      instructorSpecializations := s.instructorSpecializations + SpecializationRows(iid, specs, primary),
      nextInstructorId := iid + 1)
  }

  /** Issuing the next instructor id and linking only it keeps instructor ids
      distinct and every link pointing at an issued id. */
  lemma WithInstructorKeepsValid(s: Store, p: InstructorProfile, specs: seq<nat>, primary: nat, now: nat)
    requires Valid(s) && p.email !in s.accounts
    ensures Valid(WithInstructor(s, p, specs, primary, now))
  {
    var t := WithInstructor(s, p, specs, primary, now);
    var rows := SpecializationRows(s.nextInstructorId, specs, primary);
    forall i | 0 <= i < |t.instructorSpecializations|
      ensures t.instructorSpecializations[i].instructorId < t.nextInstructorId
    {
      if i >= |s.instructorSpecializations| {
        assert t.instructorSpecializations[i] == rows[i - |s.instructorSpecializations|];
      }
    }
    AddsInstructor(s, p, specs, primary, now);
    AddsUserKeepsValid(s, t, p.email, Instructor);
  }

  // ---------------------------------------------------------------------------
  // Sales staff and all-around staff
  // ---------------------------------------------------------------------------

  /** `registerSalesStaff`. */
  function RegisterSalesStaff(s: Store, sess: Session, c: Checks, f: StaffForm, now: nat, fault: bool)
    : (o: Outcome)
    ensures !StaffAccepted(c, f, Emails(s)) ==> Refused(s, sess, o, StaffProblems(c, f, Emails(s)))
    ensures StaffAccepted(c, f, Emails(s)) && fault ==> Refused(s, sess, o, Failed)
    ensures StaffAccepted(c, f, Emails(s)) && !fault ==>
              && Registered(s, sess, o, f.email, SalesStaff)
              && o.store.salesStaff[s.nextUserId] == StaffRow(f, now, "active", "Philippines", true)
  {
    var ps := StaffProblems(c, f, Emails(s));
    if ps != [] then Outcome(s, sess, Back(ps))
    else if fault then Outcome(s, sess, Back(Failed))
    else
      var row := StaffRow(f, now, "active", "Philippines", true);
      AddsSalesStaff(s, f.email, row);
      var t := WithAccount(s, f.email).(salesStaff := s.salesStaff[s.nextUserId := row]);
      Outcome(t, Flash(sess, f.email, SalesStaff), Redirect(AccountCreate, []))
  }

  /** `registerStaff` (all-around staff). */
  function RegisterStaff(s: Store, sess: Session, c: Checks, f: StaffForm, now: nat, fault: bool)
    : (o: Outcome)
    ensures !StaffAccepted(c, f, Emails(s)) ==> Refused(s, sess, o, StaffProblems(c, f, Emails(s)))
    ensures StaffAccepted(c, f, Emails(s)) && fault ==> Refused(s, sess, o, Failed)
    ensures StaffAccepted(c, f, Emails(s)) && !fault ==>
              && Registered(s, sess, o, f.email, AllAroundStaff)
              && o.store.allAroundStaff[s.nextUserId] == StaffRow(f, now, "active", "Philippines", true)
  {
    var ps := StaffProblems(c, f, Emails(s));
    if ps != [] then Outcome(s, sess, Back(ps))
    else if fault then Outcome(s, sess, Back(Failed))
    else
      var row := StaffRow(f, now, "active", "Philippines", true);
      AddsAllAroundStaff(s, f.email, row);
      var t := WithAccount(s, f.email).(allAroundStaff := s.allAroundStaff[s.nextUserId := row]);
      Outcome(t, Flash(sess, f.email, AllAroundStaff), Redirect(AccountCreate, []))
  }

  // ---------------------------------------------------------------------------
  // Integrity of the tables
  // ---------------------------------------------------------------------------

  /** Adding one user with one role row keeps the account and role-table invariants. */
  lemma AddsUserKeepsValid(s: Store, t: Store, email: string, role: Role)
    requires Valid(s) && AddsUser(s, t, email, role) && InstructorIdsValid(t)
    ensures Valid(t)
  {
    var newId := s.nextUserId;
    FreshUserHasNoRole(s);
    forall r, u | InTable(t, r, u)
      ensures RowEmail(t, r, u) in t.accounts && t.accounts[RowEmail(t, r, u)].userId == u
    {
      if InTable(s, r, u) {
        assert RowEmail(s, r, u) in s.accounts;
        assert RowEmail(s, r, u) != email;
      }
    }
    forall r, r', u | InTable(t, r, u) && InTable(t, r', u) ensures r == r' {
      if u != newId {
        assert InTable(s, r, u) && InTable(s, r', u);
      }
    }
  }

  /** Every registration keeps the integrity invariants of the tables. */
  lemma RegisterStudentKeepsValid(s: Store, sess: Session, c: Checks, f: StudentForm, now: nat, fault: bool)
    requires Valid(s)
    ensures Valid(RegisterStudent(s, sess, c, f, now, fault).store)
  {
    var o := RegisterStudent(s, sess, c, f, now, fault);
    if o.store != s { AddsUserKeepsValid(s, o.store, f.email, Student); }
  }

  lemma RegisterInstructorKeepsValid(s: Store, sess: Session, c: Checks, f: InstructorForm, now: nat,
                                     fault: bool, message: string)
    requires Valid(s)
    ensures Valid(RegisterInstructor(s, sess, c, f, now, fault, message).store)
  {
    if InstructorAccepted(c, f, Emails(s), s.specializations) && !fault {
      WithInstructorKeepsValid(s, f.profile, f.specializations, f.primary.value, now);
    }
  }

  lemma RegisterSalesStaffKeepsValid(s: Store, sess: Session, c: Checks, f: StaffForm, now: nat, fault: bool)
    requires Valid(s)
    ensures Valid(RegisterSalesStaff(s, sess, c, f, now, fault).store)
  {
    var o := RegisterSalesStaff(s, sess, c, f, now, fault);
    if o.store != s { AddsUserKeepsValid(s, o.store, f.email, SalesStaff); }
  }

  lemma RegisterStaffKeepsValid(s: Store, sess: Session, c: Checks, f: StaffForm, now: nat, fault: bool)
    requires Valid(s)
    ensures Valid(RegisterStaff(s, sess, c, f, now, fault).store)
  {
    var o := RegisterStaff(s, sess, c, f, now, fault);
    if o.store != s { AddsUserKeepsValid(s, o.store, f.email, AllAroundStaff); }
  }

  /** In a valid store, a newly registered user's role is the one registered for. */
  lemma RegisteredUserHasRole(s: Store, sess: Session, o: Outcome, email: string, role: Role)
    requires Valid(s) && Registered(s, sess, o, email, role) && InstructorIdsValid(o.store)
    ensures GetUserRole(o.store, s.nextUserId) == Some(role)
    ensures o.store.accounts[email].userId == s.nextUserId
  {
    AddsUserKeepsValid(s, o.store, email, role);
    GetUserRoleFindsTheTable(o.store, s.nextUserId, role);
  }

  // ---------------------------------------------------------------------------
  // Password setup
  // ---------------------------------------------------------------------------

  /** PHP's `!$email` on a session value: missing, "" and "0" are all false. */
  predicate Falsy(v: Option<string>) {
    v.None? || v.value == "" || v.value == "0"
  }

  /** The session carries a truthy flashed email that names an account. */
  predicate Flashed(s: Store, sess: Session) {
    !Falsy(sess.flashEmail) && sess.flashEmail.value in s.accounts
  }

  /** `showCreateAccountForm`: the page is shown only for a flashed email
      whose account exists and has no password yet; the role defaults to
      "student" when none was flashed. */
  function ShowCreateAccountForm(s: Store, sess: Session): (r: Response)
    ensures Falsy(sess.flashEmail) ==> r == Redirect(Register, [Problem(Error, InvalidSession)])
    ensures !Falsy(sess.flashEmail) && sess.flashEmail.value !in s.accounts ==>
              r == Redirect(Register, [Problem(Error, AccountNotFound)])
    ensures Flashed(s, sess) && s.accounts[sess.flashEmail.value].password.Some? ==> r == Redirect(Login, [])
    ensures r.Render? <==> Flashed(s, sess) && s.accounts[sess.flashEmail.value].password.None?
    ensures r.Render? ==>
              r.view == CreateAccountPage(sess.flashEmail.value,
                                          if sess.flashRole.Some? then sess.flashRole.value else "student")
  {
    if Falsy(sess.flashEmail) then Redirect(Register, [Problem(Error, InvalidSession)])
    else
      var email := sess.flashEmail.value;
      var role := if sess.flashRole.Some? then sess.flashRole.value else "student";
      if email !in s.accounts then Redirect(Register, [Problem(Error, AccountNotFound)])
      else if s.accounts[email].password.Some? then Redirect(Login, [])
      else Render(CreateAccountPage(email, role))
  }

  /** `processCreateAccount`: after validation, sets the (hashed) password of
      an account that has none, signs the user in and redirects by the role
      the form submitted; an account that already has a password is sent to
      the login page untouched. */
  function ProcessCreateAccount(s: Store, sess: Session, c: Checks, f: CreateAccountForm): (o: Outcome)
    ensures CreateAccountProblems(c, f, Emails(s)) != [] ==>
              Refused(s, sess, o, CreateAccountProblems(c, f, Emails(s)))
    ensures CreateAccountProblems(c, f, Emails(s)) == [] ==> f.email in s.accounts && f.role in RoleSlugs
    ensures CreateAccountProblems(c, f, Emails(s)) == [] && s.accounts[f.email].password.Some? ==>
              o == Outcome(s, sess, Redirect(Login, [Problem(Error, AlreadyActivated)]))
    ensures CreateAccountProblems(c, f, Emails(s)) == [] && s.accounts[f.email].password.None? ==>
              && o.store == s.(accounts := s.accounts[f.email := s.accounts[f.email].(password := Some(Hash(f.password)))])
              && o.session == sess.(user := Some(s.accounts[f.email].userId))
              && o.response == Redirect(DashboardRoute(f.role), [])
              && o.response.to != Home
  {
    var ps := CreateAccountProblems(c, f, Emails(s));
    if ps != [] then Outcome(s, sess, Back(ps))
    else
      var account := s.accounts[f.email];
      if account.password.Some? then Outcome(s, sess, Redirect(Login, [Problem(Error, AlreadyActivated)]))
      else
        var t := s.(accounts := s.accounts[f.email := account.(password := Some(Hash(f.password)))]);
        Outcome(t, sess.(user := Some(account.userId)), Redirect(DashboardRoute(f.role), []))
  }

  /** A password is set at most once: once a submission has activated an
      account, every later submission for that email leaves the tables as
      they are. */
  lemma ActivationHappensOnce(s: Store, sess: Session, c: Checks, f: CreateAccountForm,
                              sess': Session, f': CreateAccountForm)
    requires ProcessCreateAccount(s, sess, c, f).response.Redirect?
    requires f'.email == f.email
    ensures ProcessCreateAccount(ProcessCreateAccount(s, sess, c, f).store, sess', c, f').store ==
            ProcessCreateAccount(s, sess, c, f).store
  {
    var t := ProcessCreateAccount(s, sess, c, f).store;
    assert Emails(t) == Emails(s);
  }

  /** Setting a password keeps the integrity invariants of the tables. */
  lemma ProcessCreateAccountKeepsValid(s: Store, sess: Session, c: Checks, f: CreateAccountForm)
    requires Valid(s)
    ensures Valid(ProcessCreateAccount(s, sess, c, f).store)
  {
    if CreateAccountProblems(c, f, Emails(s)) == [] && s.accounts[f.email].password.None? {
      SameUserKeepsValid(s, f.email, s.accounts[f.email].(password := Some(Hash(f.password))));
    }
  }
}
