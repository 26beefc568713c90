/** The login controller: sign-in with the role read from the role tables,
    and sign-out. `now` is the request time. */
module Authentication {
  import opened Common
  import opened Http
  import opened Forms
  import opened Roles
  import opened Validation
  import opened Store

  /** The tables after `email` signs in at `now`: only its `last_login` changes. */
  function Touched(s: Store, email: string, now: nat): Store
    requires email in s.accounts
  {
    s.(accounts := s.accounts[email := s.accounts[email].(lastLogin := Some(now))])
  }

  /** `email` signed in: `last_login` recorded, the session holds the user, and
      the browser is sent to `to`. */
  predicate SignedIn(s: Store, sess: Session, o: Outcome, email: string, now: nat, to: Route)
    requires email in s.accounts
  {
    && o.store == Touched(s, email, now)
    && o.session == sess.(user := Some(s.accounts[email].userId))
    && o.response == Redirect(to, [])
  }

  /** The request is sent back with `ps`, nothing else changing. */
  predicate Rejected(s: Store, sess: Session, o: Outcome, ps: seq<Problem>) {
    o == Outcome(s, sess, Back(ps))
  }

  /** `login`. An administrator account skips the role lookup and is sent to
      the administrator dashboard; any other account must match its password
      and have a row in one of the role tables, and lands on that role's
      dashboard. */
  function LogIn(s: Store, sess: Session, c: Checks, f: LoginForm, now: nat): (o: Outcome)
    ensures LoginProblems(c, f) != [] ==> Rejected(s, sess, o, LoginProblems(c, f))
    ensures LoginProblems(c, f) == [] && f.email !in s.accounts ==>
              Rejected(s, sess, o, [Problem(UserEmail, NoAccount)])
    ensures LoginProblems(c, f) == [] && f.email in s.accounts ==>
              var a := s.accounts[f.email];
              && (!PasswordMatches(f.password, a.password) ==>
                    Rejected(s, sess, o, [Problem(UserPassword, IncorrectPassword)]))
              && (a.isSuperAdmin && PasswordMatches(f.password, a.password) ==>
                    SignedIn(s, sess, o, f.email, now, AdminDashboard))
              && (!a.isSuperAdmin && PasswordMatches(f.password, a.password) && GetUserRole(s, a.userId).None? ==>
                    Rejected(s, sess, o, [Problem(UserEmail, NoRole)]))
              && (!a.isSuperAdmin && PasswordMatches(f.password, a.password) && GetUserRole(s, a.userId).Some? ==>
                    SignedIn(s, sess, o, f.email, now, DashboardOf(GetUserRole(s, a.userId).value)))
  {
    var ps := LoginProblems(c, f);
    if ps != [] then Outcome(s, sess, Back(ps))
    else if f.email !in s.accounts then Outcome(s, sess, Back([Problem(UserEmail, NoAccount)]))
    else
      var a := s.accounts[f.email];
      var signIn := (to: Route) =>
        Outcome(Touched(s, f.email, now), sess.(user := Some(a.userId)), Redirect(to, []));
      if a.isSuperAdmin then
        if PasswordMatches(f.password, a.password) then signIn(AdminDashboard)
        else Outcome(s, sess, Back([Problem(UserPassword, IncorrectPassword)]))
      else if !PasswordMatches(f.password, a.password) then
        Outcome(s, sess, Back([Problem(UserPassword, IncorrectPassword)]))
      else match GetUserRole(s, a.userId)
        case None => Outcome(s, sess, Back([Problem(UserEmail, NoRole)]))
        case Some(role) =>
          RedirectToDashboardIsDashboardOf(role);
          signIn(DashboardRoute(Slug(role)))
  }

  /** `redirectToDashboard` looks the found role's slug up in the slug table;
      for a role read from the tables the `home` fallback is never taken. */
  lemma RedirectToDashboardIsDashboardOf(r: Role)
    ensures DashboardRoute(Slug(r)) == DashboardOf(r)
    ensures DashboardRoute(Slug(r)) != Home
  {
    SlugRoundTrip(r);
  }

  /** The account that a form signs in as, when it signs anybody in. */
  predicate Admits(s: Store, c: Checks, f: LoginForm) {
    && LoginProblems(c, f) == []
    && f.email in s.accounts
    && PasswordMatches(f.password, s.accounts[f.email].password)
    && (s.accounts[f.email].isSuperAdmin || GetUserRole(s, s.accounts[f.email].userId).Some?)
  }

  /** A login signs the user in exactly when the form is valid, the account
      exists, the password matches and the account is an administrator or has
      a role; otherwise the tables and session are left as they were. */
  lemma LoginSucceedsIff(s: Store, sess: Session, c: Checks, f: LoginForm, now: nat)
    ensures LogIn(s, sess, c, f, now).response.Redirect? <==> Admits(s, c, f)
    ensures Admits(s, c, f) ==> LogIn(s, sess, c, f, now).session.user == Some(s.accounts[f.email].userId)
    ensures !Admits(s, c, f) ==> LogIn(s, sess, c, f, now).store == s && LogIn(s, sess, c, f, now).session == sess
  {
  }

  /** An account whose password was never set up cannot sign in, whatever
      password is typed. */
  lemma UnactivatedCannotLogIn(s: Store, sess: Session, c: Checks, f: LoginForm, now: nat)
    requires f.email in s.accounts && s.accounts[f.email].password.None?
    ensures LogIn(s, sess, c, f, now).response.Back?
    ensures LogIn(s, sess, c, f, now).store == s
  {
  }

  /** In a valid store, a regular user lands on the dashboard of the one role
      table holding them; no other dashboard is reachable by that account. */
  lemma LoginLandsOnOwnDashboard(s: Store, sess: Session, c: Checks, f: LoginForm, now: nat, r: Role)
    requires Valid(s) && Admits(s, c, f) && !s.accounts[f.email].isSuperAdmin
    ensures LogIn(s, sess, c, f, now).response.to == DashboardOf(r) <==> InTable(s, r, s.accounts[f.email].userId)
  {
    var u := s.accounts[f.email].userId;
    var found := GetUserRole(s, u).value;
    GetUserRoleFindsTheTable(s, u, r);
    DashboardOfInjective(found, r);
  }

  /** Signing in only records the time, so the table invariants survive it. */
  lemma LoginKeepsValid(s: Store, sess: Session, c: Checks, f: LoginForm, now: nat)
    requires Valid(s)
    ensures Valid(LogIn(s, sess, c, f, now).store)
  {
    if Admits(s, c, f) {
      SameUserKeepsValid(s, f.email, s.accounts[f.email].(lastLogin := Some(now)));
    }
  }

  /** `logout`: the session is invalidated, so nobody is signed in and nothing
      is flashed; the tables are not touched. */
  function LogOut(s: Store, sess: Session): (o: Outcome)
    ensures o.store == s
    ensures o.session.user.None? && o.session.flashEmail.None? && o.session.flashRole.None?
    ensures o.response == Redirect(Login, [])
  {
    Outcome(s, Guest, Redirect(Login, []))
  }
}
