/** How the handlers fit together over a user's life: registration, password
    setup, sign-out, sign-in and the home route; and how the browser-side
    checks relate to the server-side rules. */
module Lifecycle {
  import opened Common
  import opened Http
  import opened Forms
  import opened Roles
  import opened Validation
  import opened Store
  import opened Registration
  import opened Authentication
  import opened Routes
  import opened ClientRules

  /** A well-formed setup request for an account without a password sets
      it, signs the account's user in and redirects by the submitted slug. */
  lemma SetupSucceeds(t: Store, sess: Session, c: Checks, email: string, password: string, slug: string)
    requires email in t.accounts && t.accounts[email].password.None?
    requires !Blank(email) && c.isEmail(email) && !Blank(password) && |password| >= 8 && slug in RoleSlugs
    ensures var o := ProcessCreateAccount(t, sess, c, CreateAccountForm(email, password, password, slug));
            && o.response == Redirect(DashboardRoute(slug), [])
            && o.session == sess.(user := Some(t.accounts[email].userId))
            && o.store == t.(accounts := t.accounts[email := t.accounts[email].(password := Some(Hash(password)))])
  {
  }

  /** Password setup right after a successful registration under `role`: the
      page is shown for the flashed email and role, and a request that submits
      a valid password together with the role's slug activates the account,
      signs the new user in and lands on the role's dashboard. The page itself
      does not send the slug (see `PageSubmissionRefused`), so this describes
      a client that adds it. */
  lemma ActivationAfterRegistration(
    s: Store, sess: Session, o1: Outcome, email: string, role: Role, c: Checks, password: string)
    requires Registered(s, sess, o1, email, role)
    requires !Blank(email) && c.isEmail(email) && email != "0"
    requires !Blank(password) && |password| >= 8
    ensures ShowCreateAccountForm(o1.store, o1.session) == Render(CreateAccountPage(email, Slug(role)))
    ensures
      var o2 := ProcessCreateAccount(o1.store, o1.session, c, CreateAccountForm(email, password, password, Slug(role)));
      && o2.response == Redirect(DashboardOf(role), [])
      && o2.session.user == Some(s.nextUserId)
      && o2.store.accounts[email] == Account(s.nextUserId, Some(Hash(password)), false, None)
      && (forall r, u :: InTable(o2.store, r, u) == InTable(o1.store, r, u))
  {
    SlugRoundTrip(role);
    SetupSucceeds(o1.store, o1.session, c, email, password, Slug(role));
  }

  /** The password-setup page posts only the email, the password and its
      confirmation. With no role in the request, the handler's `required` rule
      on `role` refuses every submission made from the page, and nothing
      changes. */
  lemma PageSubmissionRefused(s: Store, sess: Session, c: Checks, email: string, password: string,
                              confirmation: string)
    ensures var o := ProcessCreateAccount(s, sess, c, CreateAccountForm(email, password, confirmation, ""));
            && o.store == s && o.session == sess && o.response.Back?
            && Problem(RoleField, Required) in o.response.errors
  {
  }

  /** Signing in to an activated account with a role, from a signed-out
      session, lands on that role's dashboard, and the home route then agrees. */
  lemma SignInAfterActivation(t: Store, email: string, role: Role, c: Checks, password: string, later: nat)
    requires Valid(t) && email in t.accounts
    requires t.accounts[email].password == Some(Hash(password)) && !t.accounts[email].isSuperAdmin
    requires InTable(t, role, t.accounts[email].userId)
    requires !Blank(email) && c.isEmail(email) && !Blank(password)
    ensures
      var o := LogIn(t, Guest, c, LoginForm(email, password), later);
      && o.response == Redirect(DashboardOf(role), [])
      && o.session.user == Some(t.accounts[email].userId)
      && HomeRedirect(o.store, o.session) == o.response
  {
    var u := t.accounts[email].userId;
    var form := LoginForm(email, password);
    GetUserRoleFindsTheTable(t, u, role);
    PasswordMatchesHashOf(password, password);
    assert Admits(t, c, form);
    var o := LogIn(t, Guest, c, form, later);
    assert forall r :: InTable(o.store, r, u) == InTable(t, r, u);
    HomeAgreesWithGetUserRole(o.store, u);
  }

  /** The whole journey. After any successful registration under `role`,
      setting a valid password signs the new user in on that role's
      dashboard; after signing out, signing in with the same password lands
      on the same dashboard, and so does the home route. */
  lemma RegisteredUserReachesDashboard(
    s: Store, sess: Session, o1: Outcome, email: string, role: Role,
    c: Checks, password: string, later: nat)
    requires Registered(s, sess, o1, email, role) && Valid(o1.store)
    requires !Blank(email) && c.isEmail(email) && email != "0"
    requires !Blank(password) && |password| >= 8
    ensures
      var o2 := ProcessCreateAccount(o1.store, o1.session, c, CreateAccountForm(email, password, password, Slug(role)));
      var o3 := LogOut(o2.store, o2.session);
      var o4 := LogIn(o3.store, o3.session, c, LoginForm(email, password), later);
      && o2.response == o4.response == Redirect(DashboardOf(role), [])
      && o4.session.user == Some(s.nextUserId)
      && HomeRedirect(o4.store, o4.session) == o4.response
  {
    var form := CreateAccountForm(email, password, password, Slug(role));
    ActivationAfterRegistration(s, sess, o1, email, role, c, password);
    var o2 := ProcessCreateAccount(o1.store, o1.session, c, form);
    ProcessCreateAccountKeepsValid(o1.store, o1.session, c, form);
    SignInAfterActivation(o2.store, email, role, c, password, later);
  }

  /** In a valid store, the user a registration adds has a row in the
      registered role's table and in no other. */
  lemma NewUserHasOnlyItsRole(s: Store, sess: Session, o1: Outcome, email: string, role: Role, other: Role)
    requires Valid(s) && Registered(s, sess, o1, email, role)
    ensures InTable(o1.store, other, s.nextUserId) <==> other == role
  {
    FreshUserHasNoRole(s);
  }

  /** The password-setup submission decides the landing page from the role
      the form carries, not from the role tables: a user registered under
      `role` who submits the slug of `other` is signed in and sent to the
      dashboard of `other`, which the `auth` middleware then lets them see. */
  lemma SubmittedRoleDecidesLanding(
    s: Store, sess: Session, o1: Outcome, email: string, role: Role, other: Role,
    c: Checks, password: string)
    requires Valid(s) && Registered(s, sess, o1, email, role)
    requires !Blank(email) && c.isEmail(email) && !Blank(password) && |password| >= 8
    ensures
      var o2 := ProcessCreateAccount(o1.store, o1.session, c, CreateAccountForm(email, password, password, Slug(other)));
      && o2.response == Redirect(DashboardOf(other), [])
      && Admit(o2.session, DashboardOf(other)).None?
      && InTable(o2.store, other, s.nextUserId) == (other == role)
  {
    NewUserHasOnlyItsRole(s, sess, o1, email, role, other);
    SlugRoundTrip(other);
    SetupSucceeds(o1.store, o1.session, c, email, password, Slug(other));
    var o2 := ProcessCreateAccount(o1.store, o1.session, c, CreateAccountForm(email, password, password, Slug(other)));
    DashboardsNeedSignIn(other, o2.session);
    assert InTable(o2.store, other, s.nextUserId) == InTable(o1.store, other, s.nextUserId);
  }

  /** The same journey for a student, starting from any valid store with an
      "Active" status on file: the registration's own conditions suffice. */
  lemma StudentJourney(s: Store, c: Checks, f: StudentForm, now: nat, password: string, later: nat)
    requires Valid(s) && StudentAccepted(c, f, Emails(s), s.instruments) && ActiveStatusUsable(s)
    requires f.email != "0" && !Blank(password) && |password| >= 8
    ensures
      var o1 := RegisterStudent(s, Guest, c, f, now, false);
      var o2 := ProcessCreateAccount(o1.store, o1.session, c, CreateAccountForm(f.email, password, password, "student"));
      var o4 := LogIn(o2.store, Guest, c, LoginForm(f.email, password), later);
      && o2.response == Redirect(StudentDashboard, [])
      && o4.response == Redirect(StudentDashboard, [])
  {
    var o1 := RegisterStudent(s, Guest, c, f, now, false);
    RegisterStudentKeepsValid(s, Guest, c, f, now, false);
    ActivationAfterRegistration(s, Guest, o1, f.email, Student, c, password);
    var o2 := ProcessCreateAccount(o1.store, o1.session, c, CreateAccountForm(f.email, password, password, "student"));
    ProcessCreateAccountKeepsValid(o1.store, o1.session, c, CreateAccountForm(f.email, password, password, "student"));
    SignInAfterActivation(o2.store, f.email, Student, c, password, later);
  }

  /** `o` turns a second registration of `email` away: tables and session as
      they were, the form sent back, and, for a well-formed email, the
      duplicate-email problem among the ones reported. */
  predicate TurnedAway(t: Store, sess: Session, c: Checks, email: string, o: Outcome) {
    && o.store == t && o.session == sess && o.response.Back?
    && (c.isEmail(email) ==> Problem(UserEmail, Unique) in o.response.errors)
  }

  /** An email registers once: a second registration of the same email, under
      any of the four roles, is refused and changes nothing; a well-formed
      email is reported as already registered. */
  lemma EmailRegistersOnce(s: Store, sess: Session, o1: Outcome, email: string, role: Role,
                           c: Checks, sess': Session, now: nat, fault: bool, message: string,
                           fs: StudentForm, fi: InstructorForm, f: StaffForm)
    requires Registered(s, sess, o1, email, role) && !Blank(email)
    requires fs.email == email && fi.profile.email == email && f.email == email
    ensures TurnedAway(o1.store, sess', c, email, RegisterStudent(o1.store, sess', c, fs, now, fault))
    ensures TurnedAway(o1.store, sess', c, email, RegisterInstructor(o1.store, sess', c, fi, now, fault, message))
    ensures TurnedAway(o1.store, sess', c, email, RegisterSalesStaff(o1.store, sess', c, f, now, fault))
    ensures TurnedAway(o1.store, sess', c, email, RegisterStaff(o1.store, sess', c, f, now, fault))
  {
    var t := o1.store;
    assert email in Emails(t);
    TrackedInMembers(StudentProblems(c, fs, Emails(t), t.instruments));
    TrackedInMembers(InstructorProblems(c, fi, Emails(t), t.specializations));
    TrackedInMembers(StaffProblems(c, f, Emails(t)));
  }

  /** After signing out, whoever was signed in, the home route shows the
      welcome page and every dashboard sends the visitor to the login page. */
  lemma SignedOutIsGuest(s: Store, sess: Session, r: Role)
    ensures HomeRedirect(LogOut(s, sess).store, LogOut(s, sess).session) == Render(Welcome)
    ensures Admit(LogOut(s, sess).session, DashboardOf(r)) == Some(Redirect(Login, []))
  {
    DashboardsNeedSignIn(r, LogOut(s, sess).session);
  }

  /** A phone the browser's pattern accepts is accepted by the server rule;
      the converse fails for a value ending in a line feed, which the server's
      `$` lets through and the browser's does not. */
  lemma BrowserPhoneImpliesServerPhone(v: string)
    ensures PhonePattern(v) ==> PhoneRule(v)
    ensures PhoneRule("01234567890\n") && !PhonePattern("01234567890\n")
  {
    assert ("01234567890\n")[..11] == "01234567890";
  }

  /** A full-length phone left by the browser's sanitiser passes both checks. */
  lemma SanitizedPhonePassesServer(v: string)
    requires |SanitizePhone(v)| == 11
    ensures PhoneRule(SanitizePhone(v))
  {
    SanitizedFullPhoneIsValid(v);
  }

  /** The browser's and the server's ideas of "blank" differ in both
      directions: a no-break space is blank only to the browser, a NUL only to
      the server; a form feed is blank to the browser and not to the server. */
  lemma BlankRulesDiffer()
    ensures JsBlank("\U{00A0}") && !Blank("\U{00A0}")
    ensures Blank("\0") && !JsBlank("\0")
    ensures JsBlank("\U{000C}") && !Blank("\U{000C}")
  {
    assert ("\U{00A0}")[0] == '\U{00A0}';
    assert ("\0")[0] == '\0';
    assert ("\U{000C}")[0] == '\U{000C}';
  }

  /** On the characters both sides treat alike, a value the server finds
      blank the browser finds blank too. */
  lemma ServerBlankIsBrowserBlank(v: string)
    requires forall i :: 0 <= i < |v| ==> v[i] != '\0'
    ensures Blank(v) ==> JsBlank(v)
  {
  }
}
