# Music-lab accounts: registration, password setup and role-based sign-in

This project models the account lifecycle of a music-lesson business
application built on Laravel, and proves properties of it:

- **Registration.** There are four registrations: student, instructor, sales
  staff and all-around staff.
  - Each validates a role-specific form without asking for a password.
  - Inside one database transaction, it then creates a password-less
    `user_account` row and the row in the role's own table.
  - An instructor also gets one `instructor_specialization` link per ticked
    specialization; the link for the chosen primary specialization is flagged.
  - It then redirects to the password-setup page with the email and the role
    slug flashed in the session.
- **Password setup.** The page is shown only for a flashed email whose account
  exists and has no password yet. The submission sets the password once, signs
  the user in and redirects to the dashboard of the submitted role. The
  handler requires a `role` field, but the page posts only the email and the
  two password fields, so a submission from the page itself is refused; see
  `Lifecycle.PageSubmissionRefused`.
- **Login.** It finds the account by email.
  - Super-administrators go to the administrator dashboard, and the role tables
    are not consulted.
  - Anyone else must match their password and have a row in a role table. The
    tables are searched in the order student, instructor, sales staff,
    all-around staff, and the user lands on that role's dashboard.
  - Every login that succeeds records `last_login`.
- **Logout** ends the session.
- **Routes.** Registration, password setup and login sit in the `guest`
  middleware group; the dashboards and logout sit in the `auth` group. The `/`
  route sends a signed-in user to their role's dashboard, using the same search
  order, and shows the welcome page to everybody else.
- **Browser-side rules.** The pages' script holds:
  - field validation on blur;
  - phone sanitising;
  - word capitalisation and email lower-casing;
  - keeping the primary-specialization drop-down consistent with the ticked boxes;
  - the age read-out;
  - the per-step check of the instructor wizard and its final submit check.

## Modules

- `Common`: character classes (digits, word characters, the whitespace sets of
  JavaScript's `trim` and PHP's `trim`), trimming and ASCII case mapping.
- `Http`: routes, error keys and reasons, responses and the session.
- `Forms`: the request payloads, plus `Checks`. `Checks` holds the framework's
  `email`, `date` and `integer` rules, taken as given functions.
- `Roles`: roles, their slugs and their dashboards.
- `Validation`: the server-side rules of every form. A validation yields the
  list of problems found, in the order the framework runs the rules; the
  request proceeds only when the list is empty. That order is the order of
  the rule list, except that the wildcard rules (`certifications.*`,
  `specializations.*`) are expanded per entry and run after all the others.
- `Store`: the tables, the password hash, the role lookup, and the integrity
  invariants `Valid`.
- `Registration`, `Authentication` and `Routes`: the two controllers and the
  route file.
- `ClientRules`: the browser script.
- `Lifecycle`: properties that span several handlers.

## Modelling notes

- A database exception inside a registration transaction is the `fault`
  parameter. The instructor registration reports the exception's text, which
  is its `message` parameter. The request time is the `now` parameter.
- `Hash::make` is the injective `Hash`. `Hash::check` against a missing password
  is false.
- Failure leaves the tables exactly as they were, because the transaction is
  rolled back.
- Laravel's `required` fails when PHP's `trim` leaves nothing. On failure it
  stops that field's other rules. A `nullable` field that is absent or blank is
  skipped. The database rules `unique` and `exists` are skipped once the field
  already has a problem, so a malformed email reports only its format. Every
  other rule of a field runs even when an earlier one failed: `min:0` still
  runs after a failed `integer`, and compares the value of a numeric string.
- The phone rule `/^[0-9]{11}$/` is run by PHP without the `D` modifier, so it
  also accepts eleven digits followed by one line feed. The browser's copy of
  the pattern does not accept that.
- PHP truthiness is modelled where the code relies on it:
  - the flashed email `"0"` counts as missing;
  - an "Active" student status whose id is `0` counts as not found, and the
    registration fails.
- Two behaviours the code has, which the proofs state explicitly:
  - The login controller redirects an administrator to `admin.dashboard`. The
    route file declares no such route; see `Routes.AdminDashboardUndeclared`.
  - Password setup picks the dashboard from the role the form submits, not the
    role the tables hold. A user registered as a student who submits
    `instructor` lands on the instructor dashboard, and the `auth` middleware
    lets them in; see `Lifecycle.SubmittedRoleDecidesLanding`.

## Model

| member | source | states |
|---|---|---|
| Roles.RoleOfSlug | app/Http/Controllers/Auth/RegistrationController.php:479 | exactly the four role slugs name a role, and reading a slug back gives the role whose slug it is |
| Roles.SlugRoundTrip | app/Http/Controllers/Auth/LoginController.php:150-155 | every role's slug is accepted and reads back to the same role |
| Roles.DashboardRoute | app/Http/Controllers/Auth/LoginController.php:148-161 | the slug-to-route table: `home` exactly for a slug outside the four, otherwise the dashboard of exactly the role with that slug |
| Roles.DashboardOfInjective | app/Http/Controllers/Auth/RegistrationController.php:498-504 | distinct roles land on distinct dashboards |
| Store.PasswordMatches | app/Http/Controllers/Auth/LoginController.php:86 | an account without a password matches no password |
| Store.PasswordMatchesHashOf | app/Http/Controllers/Auth/LoginController.php:72 | a password checks against a stored hash exactly when it is the password that was hashed |
| Store.GetUserRole | app/Http/Controllers/Auth/LoginController.php:121-140 | no role only when no table holds the user; a found role's table holds the user, and no earlier table in the search order does |
| Store.GetUserRoleFindsTheTable | app/Http/Controllers/Auth/LoginController.php:121-140 | in a valid store, the role found is the role exactly when that role's table holds the user |
| Store.FreshUserHasNoRole | app/Http/Controllers/Auth/RegistrationController.php:96-100 | the next user id has no row in any role table of a valid store |
| Store.SameUserKeepsValid | app/Http/Controllers/Auth/LoginController.php:102-103 | changing an account's password or last login, while it keeps its id, keeps the invariants |
| Store.ActiveStatusId | app/Http/Controllers/Auth/RegistrationController.php:103-106 | none exactly when no status row is named "Active"; otherwise the id of the first such row |
| Validation.PhoneRuleIsElevenDigits | app/Http/Controllers/Auth/RegistrationController.php:76 | the server phone rule accepts eleven ASCII digits, optionally followed by a single line feed, and nothing else |
| Validation.TrackedInMembers | app/Http/Controllers/Auth/RegistrationController.php:88-91 | the tracked-problem summary of a list records exactly which of the five singled-out problems occur in it |
| Validation.TrackedAppend | app/Http/Controllers/Auth/RegistrationController.php:215-217 | the summary of a concatenation is the union of the summaries |
| Validation.RequiredString | app/Http/Controllers/Auth/RegistrationController.php:74-75 | `required, string, max`: no problem exactly when the value is not blank and within the limit; every problem names the field |
| Validation.NullableString | app/Http/Controllers/Auth/RegistrationController.php:79-80 | `nullable, string, max`: an absent or blank value passes; otherwise it must be within the limit |
| Validation.RequiredPhone | app/Http/Controllers/Auth/RegistrationController.php:76 | passes exactly when the phone rule holds; a pattern problem is reported exactly for a non-blank value that fails it |
| Validation.RequiredEmail | app/Http/Controllers/Auth/RegistrationController.php:71 | passes exactly when the email is not blank, well formed and not clashing; a malformed email reports only the format problem, and the clash problem is reported exactly when a well-formed value clashes |
| Validation.RequiredIn | app/Http/Controllers/Auth/RegistrationController.php:187 | `required, in`: passes exactly when the value is not blank and allowed |
| Validation.NullableIn | app/Http/Controllers/Auth/RegistrationController.php:82 | `nullable, in`: an absent or blank value passes; otherwise it must be allowed |
| Validation.RequiredDate | app/Http/Controllers/Auth/RegistrationController.php:186 | `required, date`: passes exactly when the value is not blank and a date |
| Validation.NullableDate | app/Http/Controllers/Auth/RegistrationController.php:81 | `nullable, date`: an absent or blank value passes; otherwise it must be a date |
| Validation.NullableExists | app/Http/Controllers/Auth/RegistrationController.php:85 | `nullable, exists`: an absent id passes; otherwise it must be on file |
| Validation.RequiredCount | app/Http/Controllers/Auth/RegistrationController.php:206 | `required, integer, min:0`: passes exactly when the value is not blank, an integer, and not negative; a blank value gets only `required`; `integer` is reported exactly for a non-integer, and `min` exactly for a negative number, so a negative non-integer such as "-1.5" gets both |
| Validation.StudentContactProblems | app/Http/Controllers/Auth/RegistrationController.php:71-76 | passes exactly when the email, name and phone rules hold; reports a duplicate email exactly when a well-formed email is already registered (the lookup is skipped after a format failure), and a malformed phone exactly when a non-blank phone fails the rule |
| Validation.StudentDetailProblems | app/Http/Controllers/Auth/RegistrationController.php:79-87 | passes exactly when the optional-field rules hold; none of the five singled-out problems is ever reported |
| Validation.StudentProblems | app/Http/Controllers/Auth/RegistrationController.php:69-91 | the student form passes exactly when every one of its rules holds; reports a duplicate email exactly when a well-formed email is already registered (the lookup is skipped after a format failure), and a malformed phone exactly when it happens |
| Validation.NameProblems | app/Http/Controllers/Auth/RegistrationController.php:181-184 | the name rules of the instructor form, never reporting a singled-out problem |
| Validation.IdentityProblems | app/Http/Controllers/Auth/RegistrationController.php:178-184 | passes exactly when the instructor's email and name rules hold; reports a duplicate email exactly when a well-formed email is already registered (the lookup is skipped after a format failure) |
| Validation.DetailProblems | app/Http/Controllers/Auth/RegistrationController.php:185-188 | passes exactly when the phone, birth date, gender and nationality rules hold; reports a malformed phone exactly when it happens |
| Validation.EmergencyProblems | app/Http/Controllers/Auth/RegistrationController.php:199-201 | passes exactly when the emergency-contact rules hold; reports a malformed contact phone exactly when it happens |
| Validation.AddressProblems | app/Http/Controllers/Auth/RegistrationController.php:191-196 | passes exactly when the address rules hold |
| Validation.ProfessionalProblems | app/Http/Controllers/Auth/RegistrationController.php:204-207 | passes exactly when the education, degree, experience and languages rules hold |
| Validation.CertificationProblems | app/Http/Controllers/Auth/RegistrationController.php:210-211 | passes exactly when every certification entry is blank or at most 255 characters |
| Validation.UnknownSpecializations | app/Http/Controllers/Auth/RegistrationController.php:215 | passes exactly when every ticked specialization id is on file |
| Validation.SpecializationProblems | app/Http/Controllers/Auth/RegistrationController.php:214-216 | the `specializations` and `primary_specialization` rules: pass exactly when at least one id is ticked and the primary one is given and among them; each of the missing list and the stray primary is reported exactly when it happens (the per-entry `exists` rule is `UnknownSpecializations`) |
| Validation.ProfileProblems | app/Http/Controllers/Auth/RegistrationController.php:176-207 | passes exactly when every column rule of the instructor profile holds, with the three profile problems reported exactly when they happen |
| Validation.InstructorProblems | app/Http/Controllers/Auth/RegistrationController.php:176-220 | the instructor form passes exactly when every rule holds; each of the five singled-out problems is reported exactly when it happens, the duplicate email only for a well-formed email |
| Validation.ProfileProblemsInOrder | app/Http/Controllers/Auth/RegistrationController.php:176-210 | the profile's problems follow the rule list: email, names, personal details, address, emergency contact, then the professional columns |
| Validation.InstructorProblemsInOrder | app/Http/Controllers/Auth/RegistrationController.php:176-217 | the instructor form's problems are in the order the rules run: the profile columns, `specializations`, `primary_specialization`, then the expanded `certifications.*` and `specializations.*` entries |
| Validation.StaffContactProblems | app/Http/Controllers/Auth/RegistrationController.php:319-322 | passes exactly when the staff email, name and phone rules hold; reports a duplicate email exactly when a well-formed email is already registered (the lookup is skipped after a format failure), and a malformed phone exactly when it happens |
| Validation.StaffDetailProblems | app/Http/Controllers/Auth/RegistrationController.php:323-325 | passes exactly when the staff optional-field rules hold |
| Validation.StaffProblems | app/Http/Controllers/Auth/RegistrationController.php:380-388 | the sales- and all-around-staff forms pass exactly when every rule holds; reports a duplicate email exactly when a well-formed email is already registered (the lookup is skipped after a format failure), and a malformed phone exactly when it happens |
| Validation.NewPasswordProblems | app/Http/Controllers/Auth/RegistrationController.php:478 | passes exactly when the password is not blank, confirmed, and at least eight characters |
| Validation.CreateAccountProblems | app/Http/Controllers/Auth/RegistrationController.php:476-480 | passes exactly when the email is well formed and registered, the password is confirmed and at least eight characters, and the role is one of the four; reports an unregistered email exactly when a well-formed email is not on file |
| Validation.LoginProblems | app/Http/Controllers/Auth/LoginController.php:52-59 | passes exactly when the email is filled and well formed and the password is filled; each blank field is reported |
| Registration.RegisterStudent | app/Http/Controllers/Auth/RegistrationController.php:66-147 | refused with the validation problems when the form fails; refused with the generic error when the database fails or no usable "Active" status exists; otherwise adds exactly one user with a password-less account and a student row carrying the status, the date and "Philippines", every other row of every role table keeps its contents, the specialization links and instructor counter are untouched, and the email and `student` are flashed |
| Registration.SpecializationRows | app/Http/Controllers/Auth/RegistrationController.php:280-288 | one link per ticked id, in order, each for the new instructor and flagged primary exactly when it is the primary id |
| Registration.PrimaryRowsMatchOccurrences | app/Http/Controllers/Auth/RegistrationController.php:284 | the number of links flagged primary equals the number of times the primary id was ticked |
| Registration.ExactlyOnePrimary | app/Http/Controllers/Auth/RegistrationController.php:280-288 | with distinct ticked ids that include the primary one, exactly one link is flagged primary |
| Registration.RegisterInstructor | app/Http/Controllers/Auth/RegistrationController.php:174-305 | refused with the validation problems, or, when a statement throws, with an error carrying the exception's message (the other three registrations report a fixed one); otherwise adds exactly one user with an instructor row under the next instructor id, appends exactly its specialization links, every other row of every role table keeps its contents, and flashes `instructor` |
| Registration.RegisterSalesStaff | app/Http/Controllers/Auth/RegistrationController.php:316-367 | refused with the validation problems or the generic error; otherwise adds exactly one user with a sales-staff row, every other row of every role table keeps its contents, the specialization links and instructor counter are untouched, and `sales_staff` is flashed |
| Registration.RegisterStaff | app/Http/Controllers/Auth/RegistrationController.php:378-429 | refused with the validation problems or the generic error; otherwise adds exactly one user with an all-around-staff row, every other row of every role table keeps its contents, the specialization links and instructor counter are untouched, and `all_around_staff` is flashed |
| Registration.AddsUserKeepsValid | app/Http/Controllers/Auth/RegistrationController.php:96-100 | adding one fresh account with one role row under its id keeps ids distinct and every user in at most one role table |
| Registration.WithInstructorKeepsValid | app/Http/Controllers/Auth/RegistrationController.php:233-288 | the instructor insert and its links keep instructor ids distinct, and every link names an issued instructor id |
| Registration.RegisterStudentKeepsValid | app/Http/Controllers/Auth/RegistrationController.php:93-147 | a student registration, whatever its outcome, keeps the invariants |
| Registration.RegisterInstructorKeepsValid | app/Http/Controllers/Auth/RegistrationController.php:222-305 | an instructor registration, whatever its outcome, keeps the invariants |
| Registration.RegisterSalesStaffKeepsValid | app/Http/Controllers/Auth/RegistrationController.php:328-366 | a sales-staff registration, whatever its outcome, keeps the invariants |
| Registration.RegisterStaffKeepsValid | app/Http/Controllers/Auth/RegistrationController.php:390-428 | an all-around-staff registration, whatever its outcome, keeps the invariants |
| Registration.RegisteredUserHasRole | app/Http/Controllers/Auth/RegistrationController.php:96-132 | in a valid store, the new account's id is the new user's, and the role lookup finds the registered role |
| Registration.ShowCreateAccountForm | app/Http/Controllers/Auth/RegistrationController.php:440-464 | an invalid session or an unknown account goes back to registration with an error; an activated account goes to login; the page is rendered exactly for a pending account, with the flashed role or `student` |
| Registration.ProcessCreateAccount | app/Http/Controllers/Auth/RegistrationController.php:474-508 | invalid input is sent back; an activated account goes to login with an error and nothing changes; otherwise only that account's password is set to the hash, the user is signed in, and the redirect is to a dashboard, never `home` |
| Registration.ActivationHappensOnce | app/Http/Controllers/Auth/RegistrationController.php:484-488 | after an account is activated, no later submission for that email changes the tables |
| Registration.ProcessCreateAccountKeepsValid | app/Http/Controllers/Auth/RegistrationController.php:491-492 | setting a password keeps the invariants |
| Authentication.LogIn | app/Http/Controllers/Auth/LoginController.php:49-111 | invalid input, an unknown email, a wrong password and an account without a role are each sent back with their own error and change nothing; an administrator with the right password goes to the admin dashboard; anyone else goes to their role's dashboard; a sign-in records `last_login` and puts the user in the session |
| Authentication.RedirectToDashboardIsDashboardOf | app/Http/Controllers/Auth/LoginController.php:148-161 | a role read from the tables maps to its own dashboard, never to `home` |
| Authentication.LoginSucceedsIff | app/Http/Controllers/Auth/LoginController.php:49-111 | a login signs in exactly when the form is valid, the account exists, the password matches, and the account is an administrator or has a role; otherwise the tables and session are unchanged |
| Authentication.UnactivatedCannotLogIn | app/Http/Controllers/Auth/LoginController.php:86-90 | an account whose password was never set cannot sign in with any password |
| Authentication.LoginLandsOnOwnDashboard | app/Http/Controllers/Auth/LoginController.php:92-110 | in a valid store, a regular user lands on a role's dashboard exactly when that role's table holds them |
| Authentication.LoginKeepsValid | app/Http/Controllers/Auth/LoginController.php:101-103 | signing in keeps the invariants |
| Authentication.LogOut | app/Http/Controllers/Auth/LoginController.php:171-179 | the session ends with no user and nothing flashed; the tables are untouched; the redirect is to login |
| Routes.GuardOf | routes/web.php:20-94 | the login, registration and password-setup routes are exactly the guest-only ones; logout and the four role dashboards are exactly the ones needing sign-in; `/` is open; `admin.dashboard` alone is undeclared |
| Routes.Admit | routes/web.php:20-94 | a request passes its middleware exactly when the route is open or the session matches the group; a signed-in user is sent to `/`, a visitor to login |
| Routes.GuestAndAuthPartition | routes/web.php:20-94 | every declared route except `/` is reachable signed out or signed in, never both and never neither |
| Routes.PasswordSetupIsGuestOnly | routes/web.php:59-63 | a signed-in user cannot reach either password-setup route |
| Routes.DashboardsNeedSignIn | routes/web.php:79-93 | every role's dashboard is declared, and only signed-in users pass its middleware |
| Routes.AdminDashboardUndeclared | app/Http/Controllers/Auth/LoginController.php:77 | the administrator dashboard is not a declared route, while every target of the slug table is |
| Routes.HomeRedirect | routes/web.php:100-115 | the welcome page exactly for a visitor or a user in no role table; otherwise a redirect to a declared dashboard behind `auth` |
| Routes.HomeAgreesWithGetUserRole | routes/web.php:100-115 | for a signed-in user, `/` redirects exactly where the role lookup followed by the slug table would, and shows the welcome page when no role is found |
| Routes.HomeIgnoresFlash | routes/web.php:101-102 | `/` depends only on the signed-in user |
| Lifecycle.ActivationAfterRegistration | app/Http/Controllers/Auth/RegistrationController.php:440-508 | right after a registration, the setup page shows the flashed email and role, and a request carrying a valid password and the role's slug activates that account and lands on the role's dashboard |
| Lifecycle.PageSubmissionRefused | resources/views/auth/create-account.blade.php:64-170 | the setup page posts no role, so the `required` rule on `role` refuses every submission from it, reporting the missing role and changing nothing |
| Lifecycle.SignInAfterActivation | app/Http/Controllers/Auth/LoginController.php:49-111 | an activated account with a role, signing in from a signed-out session, lands on that role's dashboard, and `/` then agrees |
| Lifecycle.RegisteredUserReachesDashboard | app/Http/Controllers/Auth/RegistrationController.php:474-508 | register, set the password, sign out and sign in again: both landings are the registered role's dashboard, for the new user, and `/` agrees |
| Lifecycle.StudentJourney | app/Http/Controllers/Auth/RegistrationController.php:66-147 | from any valid store with an "Active" status, a valid student form leads through setup and sign-in to the student dashboard |
| Lifecycle.SetupSucceeds | app/Http/Controllers/Auth/RegistrationController.php:474-508 | a well-formed setup request for an account without a password stores the password's hash on that account only, signs its user in, and redirects to the dashboard of the submitted slug |
| Lifecycle.NewUserHasOnlyItsRole | app/Http/Controllers/Auth/RegistrationController.php:93-134 | in a valid store, the user a registration adds is in the registered role's table and in no other |
| Lifecycle.SubmittedRoleDecidesLanding | app/Http/Controllers/Auth/RegistrationController.php:498-504 | password setup lands on the dashboard of the submitted role, which the user is then admitted to, even when their table is another role's |
| Lifecycle.EmailRegistersOnce | app/Http/Controllers/Auth/RegistrationController.php:71 | once an email is registered under any role, registering it again through any of the four registrations is refused and changes neither tables nor session; a well-formed email is reported as a duplicate |
| Lifecycle.SignedOutIsGuest | app/Http/Controllers/Auth/LoginController.php:171-179 | after signing out, `/` shows the welcome page and every dashboard sends the visitor to login |
| Lifecycle.BrowserPhoneImpliesServerPhone | resources/js/script.js:96-98 | a phone the browser accepts, the server accepts; eleven digits followed by a line feed pass the server and fail the browser |
| Lifecycle.SanitizedPhonePassesServer | resources/js/script.js:136-144 | a full-length sanitised phone passes the server rule |
| Lifecycle.BlankRulesDiffer | resources/js/script.js:79 | the browser's and the server's blank tests differ in both directions (no-break space and form feed, NUL) |
| Lifecycle.ServerBlankIsBrowserBlank | resources/js/script.js:244 | for values without NUL, a value the server finds blank the browser finds blank too |
| ClientRules.TrimsToEmpty | resources/js/script.js:79 | `!value.trim()` holds exactly when every character is JavaScript whitespace |
| ClientRules.EmailShapeIffPattern | resources/js/script.js:86-88 | the index-based email check accepts exactly what the email pattern matches |
| ClientRules.ValidateField | resources/js/script.js:77-109 | a field passes exactly when it is not a blank required field, a non-empty email field matches the pattern, and a non-empty field named `phone` is eleven digits |
| ClientRules.DigitsOnly | resources/js/script.js:138 | the result is all digits, keeps exactly the digits, and leaves an all-digit value unchanged |
| ClientRules.DigitsOnlyAppend | resources/js/script.js:138 | removing non-digits from a concatenation gives the concatenation of the results, so order and repeats are kept; with `DigitsOnlyOne` this determines the result for every string |
| ClientRules.DigitsOnlyOne | resources/js/script.js:138 | a single character is kept exactly when it is a digit |
| ClientRules.SanitizePhone | resources/js/script.js:136-144 | the sanitised phone is all digits, at most eleven, a prefix of the digits typed, and all of them when fewer than eleven |
| ClientRules.SanitizePhoneIdempotent | resources/js/script.js:136-144 | sanitising twice is sanitising once |
| ClientRules.SanitizedFullPhoneIsValid | resources/js/script.js:94-101 | a full-length sanitised phone passes the browser phone check |
| ClientRules.CapitalizeWords | resources/js/script.js:348-352 | same length; word starts upper-cased, other characters lower-cased |
| ClientRules.CapitalizeWordsKeepsText | resources/js/script.js:348-352 | capitalising changes only case, and keeps the word starts |
| ClientRules.CapitalizeWordsShape | resources/js/script.js:350 | no word start is lower-case, and no other letter is upper-case |
| ClientRules.CapitalizeWordsIdempotent | resources/js/script.js:348-352 | capitalising twice is capitalising once |
| ClientRules.LowercaseEmail | resources/js/script.js:355-360 | every character is replaced by its lower-case form, so no upper-case ASCII letter is left and the length is kept |
| ClientRules.LowercaseEmailIdempotent | resources/js/script.js:355-360 | lower-casing twice is lower-casing once |
| ClientRules.CheckedValues | resources/js/script.js:179-181 | a value is listed exactly when some box with that value is ticked |
| ClientRules.CheckedValuesAppend | resources/js/script.js:179-181 | the ticked values of a concatenation of boxes are the concatenation of the results, so page order and repeats are kept; with `CheckedValuesOne` this determines the result for every page |
| ClientRules.CheckedValuesOne | resources/js/script.js:179-181 | a single box contributes its value exactly when it is ticked |
| ClientRules.UpdatePrimaryOptions | resources/js/script.js:177-198 | option values are kept; valued options are enabled exactly when ticked; the blank option is untouched; the selection is kept if it is ticked and cleared otherwise |
| ClientRules.Age | resources/js/script.js:339-342 | the age is the number of birthday anniversaries passed: the last is on or before today, the next is after |
| ClientRules.AgeIsUnique | resources/js/script.js:339-342 | any count with that property is the computed age |
| ClientRules.AgeDisplay | resources/js/script.js:337-344 | an age is shown exactly for a birth date on or before today, and it is the non-negative age |
| ClientRules.DropBlankCertifications | resources/js/script.js:385-390 | exactly the non-blank certification entries are kept, never more entries than given |
| ClientRules.DropBlankCertificationsAppend | resources/js/script.js:385-390 | filtering a concatenation gives the concatenation of the results, so order and repeats are kept; with `DropBlankCertificationsOne` this determines the result for every list |
| ClientRules.DropBlankCertificationsOne | resources/js/script.js:385-390 | a single entry is kept exactly when it is not blank after trimming |
| ClientRules.InstructorSubmit | resources/js/script.js:383-406 | submission is blocked for no ticked specialization, then for no primary choice, and goes ahead otherwise, with blank certifications dropped |
| ClientRules.FirstMark | resources/js/script.js:251 | the position of the first `" *"` marker, with no marker before it, or -1 exactly when the text holds none |
| ClientRules.DropRequiredMark | resources/js/script.js:251 | a text without a `" *"` marker is left unchanged; otherwise exactly the first marker is cut out, and nothing else |
| ClientRules.StepPrefix | resources/js/script.js:243-257 | scanning one more input extends the blank-label list by that input's label, and the all-filled test by that input |
| ClientRules.ValidateStep | resources/js/script.js:234-275 | the step is valid exactly when every required input is filled, and the reported labels are those of the blank inputs, in order |

## Left out

- Rendering of views, the registration selection page and the `show…Form`
  actions, which only render views. So are flash messages that only carry text
  (`success`, `info`), old-input echoing, and the DOM effects of the script
  (CSS classes, alerts, spinners, animations, the wizard's step transitions and
  the password-visibility toggle).
- Session regeneration, session invalidation details and CSRF tokens. Logout is
  modelled as the empty session.
- Flash ageing across requests. The flashed email and role are carried to the
  next handler as they are.
- The `UserAccount` model's password-hashing mutator is not part of this model.
  Hashing is the abstract injective `Hash`.
- The framework's `email`, `date` and `integer` rules. These are library code,
  so they are parameters of the model (`Checks`).
- The middleware that trims strings and turns empty strings into null. Optional
  fields are `Option` values, and blank values are treated as the rules treat
  them.
- Database collation. Email comparisons, the `unique`/`exists` lookups and the
  `status_name = 'Active'` lookup are exact string equality.
- Store.ActiveStatusId: the query has no `orderBy`, so when several status rows
  are named "Active" the database picks the row. The model takes the first in
  its sequence, which stands for the row the database returns.
- The `\Log::error` call in each registration's exception handler. Logging
  has no effect on the response or the tables.
- The `created_at`/`updated_at` timestamps written with each row. No handler
  reads them back. The enrolment and hire dates are kept, taken from `now`.
- Auto-increment gaps after a rolled-back transaction. A failed registration
  leaves the counters as they were.
- The exception raised by redirecting to the undeclared `admin.dashboard` route.
  The model returns the redirect and states separately that the route is
  undeclared.
- Non-numeric ids. The ticked specialization ids, the primary one and the
  instrument id are natural numbers in the model, so a submitted id that is
  not a number, which the `exists` rule would reject, cannot be written.
- PHP's loose `==` between the ticked and the primary specialization ids.
  Both are natural numbers in the model.
- Concurrency between requests, and the live password-confirmation highlight in
  the browser.
- The certifications of an instructor. They are validated but never stored, and
  the model does the same.
- Common.LowerAscii: models only ASCII case mapping, while JavaScript's
  `toLowerCase`/`toUpperCase` map all of Unicode.
- ClientRules.LowercaseEmail: same restriction; the lower-casing is ASCII only
  through `Common.LowerAscii`.
- ClientRules.CapitalizeWords: same restriction; `\w` and the case mapping
  are ASCII only, which matches `\b\w` but not the full Unicode lower-casing
  before it.
- ClientRules.Age: dates are year/month/day triples; time zones and the parsing
  of the date string are left out.
- Lifecycle.RegisteredUserReachesDashboard: assumes the flashed email is not
  `"0"`, the one non-empty string PHP treats as false; the framework's email
  rule rejects it anyway. It also assumes a client that posts the role slug,
  which the setup page does not do (see `Lifecycle.PageSubmissionRefused`).
- Lifecycle.ActivationAfterRegistration: the same two assumptions, the email
  not `"0"` and a request that carries the role slug.
- Lifecycle.StudentJourney: the same two assumptions, the email not `"0"` and a
  request that carries the `student` slug.
- Routes.Admit: the `guest` middleware sends a signed-in user to `/`, which
  is the framework's default target. The middleware's configuration is not
  part of this model, and `Routes.PasswordSetupIsGuestOnly` relies on the same
  default.
