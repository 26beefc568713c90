/** The server-side validation rules of the four registration forms, the
    password-setup form and the login form. A validation yields the list of
    problems found, in the order the rules run; the request proceeds only when
    there is none. The rules run in the order of the rule list, except that a
    wildcard rule (`certifications.*`) is expanded per entry and runs after all
    the others (`InstructorProblemsInOrder`).

    The framework's rule semantics modelled here: a `required` value fails
    when it trims to "" and then no other rule runs on that field; a
    `nullable` field that is absent (or blank) is skipped; the database rules
    `unique` and `exists` are skipped once the field already has a problem;
    every other rule of a field runs even when an earlier one failed (so
    `min` still runs after a failed `integer`). */
module Validation {
  import opened Common
  import opened Http
  import opened Forms
  import opened Roles

  /** `trim($value) === ''`, the test behind `required`
      (equivalently `Trim(v, IsPhpSpace) == []`, see `TrimEmptyIffAllSpace`). */
  predicate Blank(v: string) { AllSpace(v, IsPhpSpace) }

  /** `/^[0-9]{11}$/` as PHP's `preg_match` runs it: without the `D` modifier,
      `$` also matches just before a final line feed. */
  predicate PhoneRule(v: string) {
    (|v| == 11 && AllDigits(v)) || (|v| == 12 && AllDigits(v[..11]) && v[11] == '\n')
  }

  /** Apart from a single trailing line feed, the server phone rule accepts
      exactly the strings of eleven ASCII digits. */
  lemma PhoneRuleIsElevenDigits(v: string)
    ensures PhoneRule(v) && (|v| == 0 || v[|v| - 1] != '\n') <==> |v| == 11 && AllDigits(v)
    ensures PhoneRule(v) ==> v[..11] == v || v == v[..11] + "\n"
  {
  }

  /** Every problem in `ps` concerns field `k`. */
  predicate Keyed(ps: seq<Problem>, k: Key) { forall p :: p in ps ==> p.key == k }

  /** Whether a problem list holds each of the five problems that the
      registration flow singles out: a duplicate email, a malformed phone, a
      malformed emergency-contact phone, no specializations, and a primary
      specialization outside the ticked ones. */
  datatype Tracked = Tracked(
    duplicateEmail: bool,
    badPhone: bool,
    badContactPhone: bool,
    noSpecializations: bool,
    strayPrimary: bool)

  const NothingTracked: Tracked := Tracked(false, false, false, false, false)

  /** The tracked problems a single problem is. */
  function TrackedOf(q: Problem): Tracked {
    Tracked(
      q == Problem(UserEmail, Unique),
      q == Problem(Phone, PatternMismatch),
      q == Problem(EmergencyContactPhone, PatternMismatch),
      q == Problem(Specializations, Required),
      q == Problem(PrimarySpecialization, NotIn))
  }

  function Either(a: Tracked, b: Tracked): Tracked {
    Tracked(
      a.duplicateEmail || b.duplicateEmail,
      a.badPhone || b.badPhone,
      a.badContactPhone || b.badContactPhone,
      a.noSpecializations || b.noSpecializations,
      a.strayPrimary || b.strayPrimary)
  }

  /** The tracked problems a list holds, gathered one problem at a time. */
  function TrackedIn(ps: seq<Problem>): Tracked {
    if ps == [] then NothingTracked else Either(TrackedOf(ps[0]), TrackedIn(ps[1..]))
  }

  /** `TrackedIn` reports exactly which tracked problems occur in the list. */
  lemma {:induction false} TrackedInMembers(ps: seq<Problem>)
    ensures TrackedIn(ps) ==
              Tracked(
                Problem(UserEmail, Unique) in ps,
                Problem(Phone, PatternMismatch) in ps,
                Problem(EmergencyContactPhone, PatternMismatch) in ps,
                Problem(Specializations, Required) in ps,
                Problem(PrimarySpecialization, NotIn) in ps)
  {
    if ps != [] {
      TrackedInMembers(ps[1..]);
      assert ps == [ps[0]] + ps[1..];
    }
  }

  /** A concatenation of problem lists holds a tracked problem when one of its parts does. */
  lemma TrackedAppend(a: seq<Problem>, b: seq<Problem>)
    ensures TrackedIn(a + b) == Either(TrackedIn(a), TrackedIn(b))
  {
    TrackedInMembers(a);
    TrackedInMembers(b);
    TrackedInMembers(a + b);
  }

  /** A list about fields none of which is tracked holds no tracked problem. */
  predicate Untracked(ps: seq<Problem>) { TrackedIn(ps) == NothingTracked }

  const Genders: set<string> := {"Male", "Female", "Other", "Prefer not to say"}
  const SkillLevels: set<string> := {"beginner", "intermediate", "advanced", "expert"}

  /** None of the role names is blank. */
  lemma RoleSlugsNotBlank()
    ensures forall r :: r in RoleSlugs ==> !Blank(r)
  {
    forall r | r in RoleSlugs ensures !Blank(r) {
      assert !IsPhpSpace(r[0]);
    }
  }

  // ---------------------------------------------------------------------------
  // Field rules
  // ---------------------------------------------------------------------------

  /** A required text field holds a non-blank value of at most `max` characters. */
  predicate Filled(v: string, max: nat) { !Blank(v) && |v| <= max }

  /** An optional text field is absent, blank, or at most `max` characters. */
  predicate OptionalWithin(v: Option<string>, max: nat) { v.None? || Blank(v.value) || |v.value| <= max }

  /** An optional choice is absent, blank, or one of `allowed`. */
  predicate OptionalAmong(v: Option<string>, allowed: set<string>) { v.None? || Blank(v.value) || v.value in allowed }

  /** `required|string|max:max`. */
  function RequiredString(k: Key, v: string, max: nat): (ps: seq<Problem>)
    ensures Keyed(ps, k)
    ensures ps == [] <==> Filled(v, max)
  {
    if Blank(v) then [Problem(k, Required)]
    else if |v| > max then [Problem(k, MaxLength(max))]
    else []
  }

  /** `nullable|string|max:max`. */
  function NullableString(k: Key, v: Option<string>, max: nat): (ps: seq<Problem>)
    ensures Keyed(ps, k)
    ensures ps == [] <==> OptionalWithin(v, max)
  {
    match v
    case None => []
    case Some(x) => if Blank(x) || |x| <= max then [] else [Problem(k, MaxLength(max))]
  }

  /** `required|regex:/^[0-9]{11}$/`. */
  function RequiredPhone(k: Key, v: string): (ps: seq<Problem>)
    ensures Keyed(ps, k)
    ensures ps == [] <==> PhoneRule(v)
    ensures Problem(k, PatternMismatch) in ps <==> !Blank(v) && !PhoneRule(v)
  {
    if Blank(v) then
      assert !PhoneRule(v) by { if |v| > 0 { assert IsPhpSpace(v[0]); } }
      [Problem(k, Required)]
    else if !PhoneRule(v) then [Problem(k, PatternMismatch)]
    else []
  }

  /** `required|email|unique:…` (`clash` is "already registered", reported as
      `Unique`) or `required|email|exists:…` (`clash` is "not registered",
      reported as `Exists`). The lookup runs only on a well-formed email: the
      framework skips `unique` and `exists` on a field that already failed. */
  function RequiredEmail(k: Key, v: string, c: Checks, clash: bool, clashReason: Reason): (ps: seq<Problem>)
    requires clashReason == Unique || clashReason == Exists
    ensures Keyed(ps, k)
    ensures ps == [] <==> !Blank(v) && c.isEmail(v) && !clash
    ensures Problem(k, clashReason) in ps <==> !Blank(v) && c.isEmail(v) && clash
    ensures !Blank(v) && !c.isEmail(v) ==> ps == [Problem(k, EmailFormat)]
  {
    if Blank(v) then [Problem(k, Required)]
    else if !c.isEmail(v) then [Problem(k, EmailFormat)]
    else if clash then [Problem(k, clashReason)]
    else []
  }

  /** `required|in:…`. */
  function RequiredIn(k: Key, v: string, allowed: set<string>): (ps: seq<Problem>)
    ensures Keyed(ps, k)
    ensures ps == [] <==> !Blank(v) && v in allowed
  {
    if Blank(v) then [Problem(k, Required)]
    else if v !in allowed then [Problem(k, NotIn)]
    else []
  }

  /** `nullable|in:…`. */
  function NullableIn(k: Key, v: Option<string>, allowed: set<string>): (ps: seq<Problem>)
    ensures Keyed(ps, k)
    ensures ps == [] <==> OptionalAmong(v, allowed)
  {
    if v.None? || Blank(v.value) || v.value in allowed then [] else [Problem(k, NotIn)]
  }

  /** `required|date`. */
  function RequiredDate(k: Key, v: string, c: Checks): (ps: seq<Problem>)
    ensures Keyed(ps, k)
    ensures ps == [] <==> !Blank(v) && c.isDate(v)
  {
    if Blank(v) then [Problem(k, Required)]
    else if !c.isDate(v) then [Problem(k, DateFormat)]
    else []
  }

  /** `nullable|date`. */
  function NullableDate(k: Key, v: Option<string>, c: Checks): (ps: seq<Problem>)
    ensures Keyed(ps, k)
    ensures ps == [] <==> v.None? || Blank(v.value) || c.isDate(v.value)
  {
    if v.None? || Blank(v.value) || c.isDate(v.value) then [] else [Problem(k, DateFormat)]
  }

  /** `nullable|exists:table,column` against the ids in `catalogue`. */
  function NullableExists(k: Key, v: Option<nat>, catalogue: set<nat>): (ps: seq<Problem>)
    ensures Keyed(ps, k)
    ensures ps == [] <==> v.None? || v.value in catalogue
  {
    if v.None? || v.value in catalogue then [] else [Problem(k, Exists)]
  }

  /** Whether `min:0` fails on `v` under the `integer` rule. The size it
      compares is the value of a numeric string and the length of any other,
      and a length is never negative. */
  predicate BelowZero(v: string, c: Checks) {
    match c.asInteger(v)
      case Some(n) => n < 0
      case None => c.asNumber(v).Some? && c.asNumber(v).value < 0.0
  }

  /** `required|integer|min:0`. A failed `integer` rule does not stop `min`,
      so a negative non-integer such as "-1.5" gets both problems. */
  function RequiredCount(k: Key, v: string, c: Checks): (ps: seq<Problem>)
    ensures Keyed(ps, k)
    ensures ps == [] <==> !Blank(v) && c.asInteger(v).Some? && c.asInteger(v).value >= 0
    ensures Problem(k, Required) in ps <==> Blank(v)
    ensures Problem(k, NotInteger) in ps <==> !Blank(v) && c.asInteger(v).None?
    ensures Problem(k, MinValue(0)) in ps <==> !Blank(v) && BelowZero(v, c)
    ensures !Blank(v) && c.asInteger(v).None? && c.asNumber(v).Some? && c.asNumber(v).value < 0.0
      ==> ps == [Problem(k, NotInteger), Problem(k, MinValue(0))]
  {
    if Blank(v) then [Problem(k, Required)]
    else
      var integer := if c.asInteger(v).None? then [Problem(k, NotInteger)] else [];
      var min := if BelowZero(v, c) then [Problem(k, MinValue(0))] else [];
      integer + min
  }

  // ---------------------------------------------------------------------------
  // Student registration
  // ---------------------------------------------------------------------------

  /** The rules on the student's email, name and phone hold. */
  predicate StudentContactAccepted(c: Checks, f: StudentForm, emails: set<string>) {
    && !Blank(f.email) && c.isEmail(f.email) && f.email !in emails
    && Filled(f.firstName, 100) && Filled(f.lastName, 100)
    && PhoneRule(f.phone)
  }

  /** The rules on the student's optional fields hold. */
  predicate StudentDetailsAccepted(c: Checks, f: StudentForm, instruments: set<nat>) {
    && OptionalWithin(f.middleName, 100) && OptionalWithin(f.suffix, 20)
    && (f.dateOfBirth.None? || Blank(f.dateOfBirth.value) || c.isDate(f.dateOfBirth.value))
    && OptionalAmong(f.gender, Genders)
    && (f.instrumentId.None? || f.instrumentId.value in instruments)
    && OptionalAmong(f.skillLevel, SkillLevels)
  }

  /** Every rule of the student form holds; `emails` are the registered emails
      and `instruments` the instrument ids on file. */
  predicate StudentAccepted(c: Checks, f: StudentForm, emails: set<string>, instruments: set<nat>) {
    StudentContactAccepted(c, f, emails) && StudentDetailsAccepted(c, f, instruments)
  }

  /** The rules on the student's email, name and phone. */
  function StudentContactProblems(c: Checks, f: StudentForm, emails: set<string>): (ps: seq<Problem>)
    ensures ps == [] <==> StudentContactAccepted(c, f, emails)
    ensures TrackedIn(ps) ==
              Tracked(!Blank(f.email) && c.isEmail(f.email) && f.email in emails,
                      !Blank(f.phone) && !PhoneRule(f.phone), false, false, false)
  {
    var ps := RequiredEmail(UserEmail, f.email, c, f.email in emails, Unique)
      + RequiredString(FirstName, f.firstName, 100)
      + RequiredString(LastName, f.lastName, 100)
      + RequiredPhone(Phone, f.phone);
    TrackedInMembers(ps);
    ps
  }

  /** The rules on the student's optional fields. */
  function StudentDetailProblems(c: Checks, f: StudentForm, instruments: set<nat>): (ps: seq<Problem>)
    ensures ps == [] <==> StudentDetailsAccepted(c, f, instruments)
    ensures Untracked(ps)
  {
    var personal := NullableString(MiddleName, f.middleName, 100)
      + NullableString(Suffix, f.suffix, 20)
      + NullableDate(DateOfBirth, f.dateOfBirth, c);
    var musical := NullableIn(Gender, f.gender, Genders)
      + NullableExists(InstrumentId, f.instrumentId, instruments)
      + NullableIn(SkillLevel, f.skillLevel, SkillLevels);
    TrackedInMembers(personal);
    TrackedInMembers(musical);
    TrackedAppend(personal, musical);
    personal + musical
  }

  /** The rules of `registerStudent`: the request is accepted exactly when
      every rule holds; it reports a duplicate email exactly when a well-formed
      email is registered, and a malformed phone exactly when a non-blank phone is not
      eleven digits. */
  function StudentProblems(c: Checks, f: StudentForm, emails: set<string>, instruments: set<nat>)
    : (ps: seq<Problem>)
    ensures ps == [] <==> StudentAccepted(c, f, emails, instruments)
    ensures TrackedIn(ps) ==
              Tracked(!Blank(f.email) && c.isEmail(f.email) && f.email in emails,
                      !Blank(f.phone) && !PhoneRule(f.phone), false, false, false)
  {
    var contact := StudentContactProblems(c, f, emails);
    var details := StudentDetailProblems(c, f, instruments);
    TrackedAppend(contact, details);
    contact + details
  }

  // ---------------------------------------------------------------------------
  // Instructor registration
  // ---------------------------------------------------------------------------

  /** The rules on the instructor's email and name columns hold. */
  predicate IdentityAccepted(c: Checks, p: InstructorProfile, emails: set<string>) {
    && !Blank(p.email) && c.isEmail(p.email) && p.email !in emails
    && Filled(p.firstName, 100) && Filled(p.lastName, 100)
    && OptionalWithin(p.middleName, 100) && OptionalWithin(p.suffix, 20)
  }

  /** The rules on the instructor's phone, birth date, gender and nationality hold. */
  predicate DetailsAccepted(c: Checks, p: InstructorProfile) {
    && PhoneRule(p.phone)
    && !Blank(p.dateOfBirth) && c.isDate(p.dateOfBirth)
    && !Blank(p.gender) && p.gender in Genders
    && OptionalWithin(p.nationality, 100)
  }

  /** The rules on the emergency contact hold. */
  predicate EmergencyAccepted(p: InstructorProfile) {
    && Filled(p.emergencyContactName, 100)
    && Filled(p.emergencyContactRelationship, 100)
    && PhoneRule(p.emergencyContactPhone)
  }

  /** The rules on the address columns hold. */
  predicate AddressAccepted(p: InstructorProfile) {
    && Filled(p.addressLine1, 255) && OptionalWithin(p.addressLine2, 255)
    && Filled(p.city, 100) && Filled(p.province, 100)
    && Filled(p.postalCode, 20) && Filled(p.country, 100)
  }

  /** The rules on the professional columns hold. */
  predicate ProfessionalAccepted(c: Checks, p: InstructorProfile) {
    && Filled(p.educationLevel, 100) && OptionalWithin(p.musicDegree, 200)
    && !Blank(p.yearsOfExperience)
    && c.asInteger(p.yearsOfExperience).Some? && c.asInteger(p.yearsOfExperience).value >= 0
    && OptionalWithin(p.languagesSpoken, 255)
  }

  /** Every column rule of the instructor profile holds. */
  predicate ProfileAccepted(c: Checks, p: InstructorProfile, emails: set<string>) {
    && IdentityAccepted(c, p, emails) && DetailsAccepted(c, p) && EmergencyAccepted(p)
    && AddressAccepted(p) && ProfessionalAccepted(c, p)
  }

  /** At least one specialization, and the primary one among them. */
  predicate SpecializationsChosen(specs: seq<nat>, primary: Option<nat>) {
    |specs| >= 1 && primary.Some? && primary.value in specs
  }

  /** At least one specialization, each on file, and the primary one among them. */
  predicate SpecializationsAccepted(specs: seq<nat>, primary: Option<nat>, catalogue: set<nat>) {
    && SpecializationsChosen(specs, primary)
    && (forall i :: 0 <= i < |specs| ==> specs[i] in catalogue)
  }

  /** Every certification entry is blank or at most 255 characters. */
  predicate CertificationsAccepted(certs: seq<string>) {
    forall i :: 0 <= i < |certs| ==> Blank(certs[i]) || |certs[i]| <= 255
  }

  /** Every rule of the instructor form holds. */
  predicate InstructorAccepted(c: Checks, f: InstructorForm, emails: set<string>, catalogue: set<nat>) {
    && ProfileAccepted(c, f.profile, emails)
    && CertificationsAccepted(f.certifications)
    && SpecializationsAccepted(f.specializations, f.primary, catalogue)
  }

  /** The position of a field's rules in `registerInstructor`'s rule list as
      the framework runs it. The wildcard rules `certifications.*` and
      `specializations.*` are expanded into one rule per submitted entry and
      appended to the end of the list, after `primary_specialization`. Fields
      the form does not have come last. */
  function InstructorRank(k: Key): nat {
    match k
      case UserEmail => 0
      case FirstName => 1
      case LastName => 2
      case MiddleName => 3
      case Suffix => 4
      case Phone => 5
      case DateOfBirth => 6
      case Gender => 7
      case Nationality => 8
      case AddressLine1 => 9
      case AddressLine2 => 10
      case City => 11
      case Province => 12
      case PostalCode => 13
      case Country => 14
      case EmergencyContactName => 15
      case EmergencyContactRelationship => 16
      case EmergencyContactPhone => 17
      case EducationLevel => 18
      case MusicDegree => 19
      case YearsOfExperience => 20
      case LanguagesSpoken => 21
      case TeachingStyle => 22
      case Bio => 23
      case Specializations => 24
      case PrimarySpecialization => 25
      case Certification(_) => 26
      case SpecializationItem(_) => 27
      case _ => 28
  }

  /** The rank of each problem's field, in list order. */
  function Ranks(ps: seq<Problem>): (rs: seq<nat>)
    ensures |rs| == |ps|
  {
    if ps == [] then [] else [InstructorRank(ps[0].key)] + Ranks(ps[1..])
  }

  /** The ranks never decrease along the list. */
  predicate Sorted(rs: seq<nat>) {
    forall i, j :: 0 <= i < j < |rs| ==> rs[i] <= rs[j]
  }

  /** Every rank lies in `lo..hi`. */
  predicate Between(rs: seq<nat>, lo: nat, hi: nat) {
    forall i :: 0 <= i < |rs| ==> lo <= rs[i] <= hi
  }

  /** The problems are listed in the order the instructor's rules run. */
  predicate InInstructorOrder(ps: seq<Problem>) { Sorted(Ranks(ps)) }

  /** Every problem concerns a field whose rank lies in `lo..hi`. */
  predicate RankedWithin(ps: seq<Problem>, lo: nat, hi: nat) { Between(Ranks(ps), lo, hi) }

  lemma {:induction false} RanksAppend(a: seq<Problem>, b: seq<Problem>)
    ensures Ranks(a + b) == Ranks(a) + Ranks(b)
  {
    if a == [] {
      assert a + b == b;
    } else {
      assert (a + b)[0] == a[0] && (a + b)[1..] == a[1..] + b;
      RanksAppend(a[1..], b);
    }
  }

  /** The problems of a single field are trivially in order. */
  lemma {:induction false} KeyedInOrder(ps: seq<Problem>, k: Key)
    requires Keyed(ps, k)
    ensures InInstructorOrder(ps) && RankedWithin(ps, InstructorRank(k), InstructorRank(k))
  {
    if ps != [] {
      assert ps[0] in ps;
      assert Keyed(ps[1..], k) by {
        forall q | q in ps[1..] ensures q.key == k { assert q in ps; }
      }
      KeyedInOrder(ps[1..], k);
      var r := InstructorRank(k);
      assert Ranks(ps) == [r] + Ranks(ps[1..]);
      forall i | 0 <= i < |Ranks(ps)| ensures Ranks(ps)[i] == r {
        if i > 0 { assert Ranks(ps)[i] == Ranks(ps[1..])[i - 1]; }
      }
    }
  }

  /** Two sorted rank sequences whose ranges meet at `mid` stay sorted when joined. */
  lemma SortedJoin(ra: seq<nat>, rb: seq<nat>, lo: nat, mid: nat, hi: nat)
    requires Sorted(ra) && Between(ra, lo, mid)
    requires Sorted(rb) && Between(rb, mid, hi)
    requires lo <= mid <= hi
    ensures Sorted(ra + rb) && Between(ra + rb, lo, hi)
  {
    var r := ra + rb;
    forall i, j | 0 <= i < j < |r| ensures r[i] <= r[j] {
      if j < |ra| {
        assert r[i] == ra[i] && r[j] == ra[j];
      } else if i < |ra| {
        assert r[i] == ra[i] && r[j] == rb[j - |ra|];
      } else {
        assert r[i] == rb[i - |ra|] && r[j] == rb[j - |ra|];
      }
    }
    forall i | 0 <= i < |r| ensures lo <= r[i] <= hi {
      if i < |ra| { assert r[i] == ra[i]; } else { assert r[i] == rb[i - |ra|]; }
    }
  }

  /** Two ordered lists whose rank ranges meet at `mid` stay ordered when joined. */
  lemma JoinInOrder(a: seq<Problem>, b: seq<Problem>, lo: nat, mid: nat, hi: nat)
    requires InInstructorOrder(a) && RankedWithin(a, lo, mid)
    requires InInstructorOrder(b) && RankedWithin(b, mid, hi)
    requires lo <= mid <= hi
    ensures InInstructorOrder(a + b) && RankedWithin(a + b, lo, hi)
  {
    RanksAppend(a, b);
    SortedJoin(Ranks(a), Ranks(b), lo, mid, hi);
  }

  /** The rules on the instructor's name columns. */
  function NameProblems(p: InstructorProfile): (ps: seq<Problem>)
    ensures ps == [] <==> && Filled(p.firstName, 100) && Filled(p.lastName, 100)
                          && OptionalWithin(p.middleName, 100) && OptionalWithin(p.suffix, 20)
    ensures Untracked(ps)
  {
    var first := RequiredString(FirstName, p.firstName, 100);
    var last := RequiredString(LastName, p.lastName, 100);
    var middle := NullableString(MiddleName, p.middleName, 100);
    var suffix := NullableString(Suffix, p.suffix, 20);
    var ps := first + last + middle + suffix;
    TrackedInMembers(ps);
    ps
  }

  /** The rules on the instructor's email and name columns. */
  function IdentityProblems(c: Checks, p: InstructorProfile, emails: set<string>): (ps: seq<Problem>)
    ensures ps == [] <==> IdentityAccepted(c, p, emails)
    ensures TrackedIn(ps) ==
              Tracked(!Blank(p.email) && c.isEmail(p.email) && p.email in emails, false, false, false, false)
  {
    var email := RequiredEmail(UserEmail, p.email, c, p.email in emails, Unique);
    var names := NameProblems(p);
    TrackedInMembers(email);
    TrackedAppend(email, names);
    email + names
  }

  /** The rules on the instructor's phone, birth date, gender and nationality. */
  function DetailProblems(c: Checks, p: InstructorProfile): (ps: seq<Problem>)
    ensures ps == [] <==> DetailsAccepted(c, p)
    ensures TrackedIn(ps) == Tracked(false, !Blank(p.phone) && !PhoneRule(p.phone), false, false, false)
  {
    var phone := RequiredPhone(Phone, p.phone);
    var born := RequiredDate(DateOfBirth, p.dateOfBirth, c);
    var gender := RequiredIn(Gender, p.gender, Genders);
    var nationality := NullableString(Nationality, p.nationality, 100);
    var ps := phone + born + gender + nationality;
    TrackedInMembers(ps);
    ps
  }

  /** The rules on the emergency contact, whose phone follows the same
      eleven-digit rule as the instructor's own. */
  function EmergencyProblems(p: InstructorProfile): (ps: seq<Problem>)
    ensures ps == [] <==> EmergencyAccepted(p)
    ensures TrackedIn(ps) ==
              Tracked(false, false, !Blank(p.emergencyContactPhone) && !PhoneRule(p.emergencyContactPhone),
                      false, false)
  {
    var name := RequiredString(EmergencyContactName, p.emergencyContactName, 100);
    var relation := RequiredString(EmergencyContactRelationship, p.emergencyContactRelationship, 100);
    var phone := RequiredPhone(EmergencyContactPhone, p.emergencyContactPhone);
    var ps := name + relation + phone;
    TrackedInMembers(ps);
    ps
  }

  /** The rules on the instructor's address columns. */
  function AddressProblems(p: InstructorProfile): (ps: seq<Problem>)
    ensures ps == [] <==> AddressAccepted(p)
    ensures Untracked(ps)
  {
    var street := RequiredString(AddressLine1, p.addressLine1, 255)
      + NullableString(AddressLine2, p.addressLine2, 255)
      + RequiredString(City, p.city, 100);
    var region := RequiredString(Province, p.province, 100)
      + RequiredString(PostalCode, p.postalCode, 20)
      + RequiredString(Country, p.country, 100);
    TrackedInMembers(street);
    TrackedInMembers(region);
    TrackedAppend(street, region);
    street + region
  }

  /** The rules on the professional columns (`teaching_style` and `bio` are
      unbounded optional strings and cannot fail). */
  function ProfessionalProblems(c: Checks, p: InstructorProfile): (ps: seq<Problem>)
    ensures ps == [] <==> ProfessionalAccepted(c, p)
    ensures Untracked(ps)
  {
    var education := RequiredString(EducationLevel, p.educationLevel, 100);
    var degree := NullableString(MusicDegree, p.musicDegree, 200);
    var years := RequiredCount(YearsOfExperience, p.yearsOfExperience, c);
    var languages := NullableString(LanguagesSpoken, p.languagesSpoken, 255);
    var ps := education + degree + years + languages;
    TrackedInMembers(ps);
    ps
  }

  /** `certifications.*`: `nullable|string|max:255`, one problem per over-long
      entry from position `from` on. */
  function CertificationProblems(certs: seq<string>, from: nat): (ps: seq<Problem>)
    requires from <= |certs|
    ensures ps == [] <==> forall i :: from <= i < |certs| ==> Blank(certs[i]) || |certs[i]| <= 255
    ensures Untracked(ps)
    ensures forall i :: 0 <= i < |ps| ==> ps[i].key.Certification? && from <= ps[i].key.index < |certs|
    decreases |certs| - from
  {
    if from == |certs| then []
    else
      var here := if !Blank(certs[from]) && |certs[from]| > 255
                  then [Problem(Certification(from), MaxLength(255))] else [];
      var rest := CertificationProblems(certs, from + 1);
      TrackedInMembers(here);
      TrackedAppend(here, rest);
      here + rest
  }

  /** `specializations.*`: `exists:specialization,specialization_id`, one
      problem per unknown id from position `from` on. */
  function UnknownSpecializations(specs: seq<nat>, catalogue: set<nat>, from: nat): (ps: seq<Problem>)
    requires from <= |specs|
    ensures ps == [] <==> forall i :: from <= i < |specs| ==> specs[i] in catalogue
    ensures Untracked(ps)
    ensures forall i :: 0 <= i < |ps| ==> ps[i].key.SpecializationItem? && from <= ps[i].key.index < |specs|
    decreases |specs| - from
  {
    if from == |specs| then []
    else
      var here := if specs[from] in catalogue then [] else [Problem(SpecializationItem(from), Exists)];
      var rest := UnknownSpecializations(specs, catalogue, from + 1);
      TrackedInMembers(here);
      TrackedAppend(here, rest);
      here + rest
  }

  /** `specializations`: `required|array|min:1`, and `primary_specialization`:
      required and one of the submitted ids. The per-entry `exists` rule is
      `UnknownSpecializations`, which runs later. */
  function SpecializationProblems(specs: seq<nat>, primary: Option<nat>): (ps: seq<Problem>)
    ensures ps == [] <==> SpecializationsChosen(specs, primary)
    ensures TrackedIn(ps) ==
              Tracked(false, false, false, |specs| == 0, primary.Some? && primary.value !in specs)
  {
    var missing := if |specs| == 0 then [Problem(Specializations, Required)] else [];
    var chosen := match primary
      case None => [Problem(PrimarySpecialization, Required)]
      case Some(p) => if p in specs then [] else [Problem(PrimarySpecialization, NotIn)];
    TrackedInMembers(missing);
    TrackedInMembers(chosen);
    TrackedAppend(missing, chosen);
    missing + chosen
  }

  /** Every rule on the instructor table's columns. */
  function ProfileProblems(c: Checks, p: InstructorProfile, emails: set<string>): (ps: seq<Problem>)
    ensures ps == [] <==> ProfileAccepted(c, p, emails)
    ensures TrackedIn(ps) ==
              Tracked(!Blank(p.email) && c.isEmail(p.email) && p.email in emails,
                      !Blank(p.phone) && !PhoneRule(p.phone),
                      !Blank(p.emergencyContactPhone) && !PhoneRule(p.emergencyContactPhone),
                      false, false)
  {
    var identity := IdentityProblems(c, p, emails);
    var details := DetailProblems(c, p);
    var address := AddressProblems(p);
    var emergency := EmergencyProblems(p);
    var professional := ProfessionalProblems(c, p);
    TrackedAppend(identity, details);
    TrackedAppend(identity + details, address);
    TrackedAppend(identity + details + address, emergency);
    TrackedAppend(identity + details + address + emergency, professional);
    identity + details + address + emergency + professional
  }

  /** The rules of `registerInstructor`: the request is accepted exactly when
      every rule holds, and it reports a duplicate email, a malformed phone (the
      instructor's or the emergency contact's), a missing specialization list and
      a primary specialization outside the ticked ones exactly when each happens. */
  function InstructorProblems(c: Checks, f: InstructorForm, emails: set<string>, catalogue: set<nat>)
    : (ps: seq<Problem>)
    ensures ps == [] <==> InstructorAccepted(c, f, emails, catalogue)
    ensures TrackedIn(ps) ==
              Tracked(!Blank(f.profile.email) && c.isEmail(f.profile.email) && f.profile.email in emails,
                      !Blank(f.profile.phone) && !PhoneRule(f.profile.phone),
                      !Blank(f.profile.emergencyContactPhone) && !PhoneRule(f.profile.emergencyContactPhone),
                      |f.specializations| == 0,
                      f.primary.Some? && f.primary.value !in f.specializations)
  {
    var profile := ProfileProblems(c, f.profile, emails);
    var chosen := SpecializationProblems(f.specializations, f.primary);
    var certifications := CertificationProblems(f.certifications, 0);
    var unknown := UnknownSpecializations(f.specializations, catalogue, 0);
    JoinGroups(profile, chosen, certifications, unknown);
    profile + chosen + (certifications + unknown)
  }

  /** The instructor's four rule groups, joined: the list is empty exactly
      when every group is, and it holds the tracked problems of the first two,
      because the wildcard groups hold none. */
  lemma JoinGroups(profile: seq<Problem>, chosen: seq<Problem>, certifications: seq<Problem>,
                   unknown: seq<Problem>)
    requires Untracked(certifications) && Untracked(unknown)
    ensures var ps := profile + chosen + (certifications + unknown);
            && (ps == [] <==> profile == [] && chosen == [] && certifications == [] && unknown == [])
            && TrackedIn(ps) == Either(TrackedIn(profile), TrackedIn(chosen))
  {
    TrackedAppend(certifications, unknown);
    TrackedAppend(profile, chosen);
    TrackedAppend(profile + chosen, certifications + unknown);
  }

  /** Two single-field lists, the first field's rules running no later. */
  lemma InOrder2(a: seq<Problem>, ka: Key, b: seq<Problem>, kb: Key)
    requires Keyed(a, ka) && Keyed(b, kb) && InstructorRank(ka) <= InstructorRank(kb)
    ensures InInstructorOrder(a + b) && RankedWithin(a + b, InstructorRank(ka), InstructorRank(kb))
  {
    KeyedInOrder(a, ka);
    KeyedInOrder(b, kb);
    JoinInOrder(a, b, InstructorRank(ka), InstructorRank(ka), InstructorRank(kb));
  }

  /** Three single-field lists in rule order. */
  lemma InOrder3(a: seq<Problem>, ka: Key, b: seq<Problem>, kb: Key, c: seq<Problem>, kc: Key)
    requires Keyed(a, ka) && Keyed(b, kb) && Keyed(c, kc)
    requires InstructorRank(ka) <= InstructorRank(kb) <= InstructorRank(kc)
    ensures InInstructorOrder(a + b + c) && RankedWithin(a + b + c, InstructorRank(ka), InstructorRank(kc))
  {
    InOrder2(a, ka, b, kb);
    KeyedInOrder(c, kc);
    JoinInOrder(a + b, c, InstructorRank(ka), InstructorRank(kb), InstructorRank(kc));
  }

  /** Four single-field lists in rule order. */
  lemma InOrder4(a: seq<Problem>, ka: Key, b: seq<Problem>, kb: Key, c: seq<Problem>, kc: Key,
                 d: seq<Problem>, kd: Key)
    requires Keyed(a, ka) && Keyed(b, kb) && Keyed(c, kc) && Keyed(d, kd)
    requires InstructorRank(ka) <= InstructorRank(kb) <= InstructorRank(kc) <= InstructorRank(kd)
    ensures InInstructorOrder(a + b + c + d) && RankedWithin(a + b + c + d, InstructorRank(ka), InstructorRank(kd))
  {
    InOrder3(a, ka, b, kb, c, kc);
    KeyedInOrder(d, kd);
    JoinInOrder(a + b + c, d, InstructorRank(ka), InstructorRank(kc), InstructorRank(kd));
  }

  lemma NameProblemsInOrder(p: InstructorProfile)
    ensures InInstructorOrder(NameProblems(p)) && RankedWithin(NameProblems(p), 1, 4)
  {
    var first := RequiredString(FirstName, p.firstName, 100);
    var last := RequiredString(LastName, p.lastName, 100);
    var middle := NullableString(MiddleName, p.middleName, 100);
    var suffix := NullableString(Suffix, p.suffix, 20);
    assert NameProblems(p) == first + last + middle + suffix;
    NameBlocks(first, last, middle, suffix);
  }

  lemma NameBlocks(first: seq<Problem>, last: seq<Problem>, middle: seq<Problem>, suffix: seq<Problem>)
    requires Keyed(first, FirstName) && Keyed(last, LastName)
    requires Keyed(middle, MiddleName) && Keyed(suffix, Suffix)
    ensures InInstructorOrder(first + last + middle + suffix) && RankedWithin(first + last + middle + suffix, 1, 4)
  {
    InOrder4(first, FirstName, last, LastName, middle, MiddleName, suffix, Suffix);
  }

  lemma IdentityProblemsInOrder(c: Checks, p: InstructorProfile, emails: set<string>)
    ensures InInstructorOrder(IdentityProblems(c, p, emails)) && RankedWithin(IdentityProblems(c, p, emails), 0, 4)
  {
    var email := RequiredEmail(UserEmail, p.email, c, p.email in emails, Unique);
    var names := NameProblems(p);
    assert IdentityProblems(c, p, emails) == email + names;
    NameProblemsInOrder(p);
    IdentityBlocks(email, names);
  }

  lemma IdentityBlocks(email: seq<Problem>, names: seq<Problem>)
    requires Keyed(email, UserEmail)
    requires InInstructorOrder(names) && RankedWithin(names, 1, 4)
    ensures InInstructorOrder(email + names) && RankedWithin(email + names, 0, 4)
  {
    KeyedInOrder(email, UserEmail);
    JoinInOrder(email, names, 0, 1, 4);
  }

  lemma DetailProblemsInOrder(c: Checks, p: InstructorProfile)
    ensures InInstructorOrder(DetailProblems(c, p)) && RankedWithin(DetailProblems(c, p), 5, 8)
  {
    var phone := RequiredPhone(Phone, p.phone);
    var born := RequiredDate(DateOfBirth, p.dateOfBirth, c);
    var gender := RequiredIn(Gender, p.gender, Genders);
    var nationality := NullableString(Nationality, p.nationality, 100);
    assert DetailProblems(c, p) == phone + born + gender + nationality;
    DetailBlocks(phone, born, gender, nationality);
  }

  lemma DetailBlocks(phone: seq<Problem>, born: seq<Problem>, gender: seq<Problem>, nationality: seq<Problem>)
    requires Keyed(phone, Phone) && Keyed(born, DateOfBirth)
    requires Keyed(gender, Gender) && Keyed(nationality, Nationality)
    ensures InInstructorOrder(phone + born + gender + nationality)
    ensures RankedWithin(phone + born + gender + nationality, 5, 8)
  {
    InOrder4(phone, Phone, born, DateOfBirth, gender, Gender, nationality, Nationality);
  }

  lemma AddressProblemsInOrder(p: InstructorProfile)
    ensures InInstructorOrder(AddressProblems(p)) && RankedWithin(AddressProblems(p), 9, 14)
  {
    var line1 := RequiredString(AddressLine1, p.addressLine1, 255);
    var line2 := NullableString(AddressLine2, p.addressLine2, 255);
    var city := RequiredString(City, p.city, 100);
    var province := RequiredString(Province, p.province, 100);
    var postal := RequiredString(PostalCode, p.postalCode, 20);
    var country := RequiredString(Country, p.country, 100);
    assert AddressProblems(p) == (line1 + line2 + city) + (province + postal + country);
    AddressBlocks(line1, line2, city, province, postal, country);
  }

  lemma AddressBlocks(line1: seq<Problem>, line2: seq<Problem>, city: seq<Problem>,
                      province: seq<Problem>, postal: seq<Problem>, country: seq<Problem>)
    requires Keyed(line1, AddressLine1) && Keyed(line2, AddressLine2) && Keyed(city, City)
    requires Keyed(province, Province) && Keyed(postal, PostalCode) && Keyed(country, Country)
    ensures var ps := (line1 + line2 + city) + (province + postal + country);
            InInstructorOrder(ps) && RankedWithin(ps, 9, 14)
  {
    InOrder3(line1, AddressLine1, line2, AddressLine2, city, City);
    InOrder3(province, Province, postal, PostalCode, country, Country);
    JoinInOrder(line1 + line2 + city, province + postal + country, 9, 11, 14);
  }

  lemma EmergencyProblemsInOrder(p: InstructorProfile)
    ensures InInstructorOrder(EmergencyProblems(p)) && RankedWithin(EmergencyProblems(p), 15, 17)
  {
    var name := RequiredString(EmergencyContactName, p.emergencyContactName, 100);
    var relation := RequiredString(EmergencyContactRelationship, p.emergencyContactRelationship, 100);
    var phone := RequiredPhone(EmergencyContactPhone, p.emergencyContactPhone);
    assert EmergencyProblems(p) == name + relation + phone;
    EmergencyBlocks(name, relation, phone);
  }

  lemma EmergencyBlocks(name: seq<Problem>, relation: seq<Problem>, phone: seq<Problem>)
    requires Keyed(name, EmergencyContactName) && Keyed(relation, EmergencyContactRelationship)
    requires Keyed(phone, EmergencyContactPhone)
    ensures InInstructorOrder(name + relation + phone) && RankedWithin(name + relation + phone, 15, 17)
  {
    InOrder3(name, EmergencyContactName, relation, EmergencyContactRelationship, phone, EmergencyContactPhone);
  }

  lemma ProfessionalProblemsInOrder(c: Checks, p: InstructorProfile)
    ensures InInstructorOrder(ProfessionalProblems(c, p)) && RankedWithin(ProfessionalProblems(c, p), 18, 21)
  {
    var education := RequiredString(EducationLevel, p.educationLevel, 100);
    var degree := NullableString(MusicDegree, p.musicDegree, 200);
    var years := RequiredCount(YearsOfExperience, p.yearsOfExperience, c);
    var languages := NullableString(LanguagesSpoken, p.languagesSpoken, 255);
    assert ProfessionalProblems(c, p) == education + degree + years + languages;
    ProfessionalBlocks(education, degree, years, languages);
  }

  lemma ProfessionalBlocks(education: seq<Problem>, degree: seq<Problem>, years: seq<Problem>,
                           languages: seq<Problem>)
    requires Keyed(education, EducationLevel) && Keyed(degree, MusicDegree)
    requires Keyed(years, YearsOfExperience) && Keyed(languages, LanguagesSpoken)
    ensures InInstructorOrder(education + degree + years + languages)
    ensures RankedWithin(education + degree + years + languages, 18, 21)
  {
    InOrder4(education, EducationLevel, degree, MusicDegree, years, YearsOfExperience,
             languages, LanguagesSpoken);
  }

  lemma SpecializationProblemsInOrder(specs: seq<nat>, primary: Option<nat>)
    ensures InInstructorOrder(SpecializationProblems(specs, primary))
    ensures RankedWithin(SpecializationProblems(specs, primary), 24, 25)
  {
    var missing := if |specs| == 0 then [Problem(Specializations, Required)] else [];
    var chosen := match primary
      case None => [Problem(PrimarySpecialization, Required)]
      case Some(p) => if p in specs then [] else [Problem(PrimarySpecialization, NotIn)];
    assert SpecializationProblems(specs, primary) == missing + chosen;
    SpecializationBlocks(missing, chosen);
  }

  lemma SpecializationBlocks(missing: seq<Problem>, chosen: seq<Problem>)
    requires Keyed(missing, Specializations) && Keyed(chosen, PrimarySpecialization)
    ensures InInstructorOrder(missing + chosen) && RankedWithin(missing + chosen, 24, 25)
  {
    InOrder2(missing, Specializations, chosen, PrimarySpecialization);
  }

  /** Joins the five ordered column groups of the profile. */
  lemma JoinProfile(identity: seq<Problem>, details: seq<Problem>, address: seq<Problem>,
                    emergency: seq<Problem>, professional: seq<Problem>)
    requires InInstructorOrder(identity) && RankedWithin(identity, 0, 4)
    requires InInstructorOrder(details) && RankedWithin(details, 5, 8)
    requires InInstructorOrder(address) && RankedWithin(address, 9, 14)
    requires InInstructorOrder(emergency) && RankedWithin(emergency, 15, 17)
    requires InInstructorOrder(professional) && RankedWithin(professional, 18, 21)
    ensures var ps := identity + details + address + emergency + professional;
            InInstructorOrder(ps) && RankedWithin(ps, 0, 21)
  {
    JoinInOrder(identity, details, 0, 4, 8);
    JoinInOrder(identity + details, address, 0, 8, 14);
    JoinInOrder(identity + details + address, emergency, 0, 14, 17);
    JoinInOrder(identity + details + address + emergency, professional, 0, 17, 21);
  }

  /** The instructor profile's problems come in the order of the rule list:
      identity, personal details, address, emergency contact, then the
      professional columns. */
  lemma ProfileProblemsInOrder(c: Checks, p: InstructorProfile, emails: set<string>)
    ensures InInstructorOrder(ProfileProblems(c, p, emails)) && RankedWithin(ProfileProblems(c, p, emails), 0, 21)
  {
    var identity := IdentityProblems(c, p, emails);
    var details := DetailProblems(c, p);
    var address := AddressProblems(p);
    var emergency := EmergencyProblems(p);
    var professional := ProfessionalProblems(c, p);
    assert ProfileProblems(c, p, emails) == identity + details + address + emergency + professional;
    IdentityProblemsInOrder(c, p, emails);
    DetailProblemsInOrder(c, p);
    AddressProblemsInOrder(p);
    EmergencyProblemsInOrder(p);
    ProfessionalProblemsInOrder(c, p);
    JoinProfile(identity, details, address, emergency, professional);
  }

  /** Entries of one wildcard rule share its rank. */
  lemma WildcardsInOrder(certifications: seq<Problem>, unknown: seq<Problem>)
    requires forall i :: 0 <= i < |certifications| ==> certifications[i].key.Certification?
    requires forall i :: 0 <= i < |unknown| ==> unknown[i].key.SpecializationItem?
    ensures InInstructorOrder(certifications + unknown) && RankedWithin(certifications + unknown, 26, 27)
  {
    FlatInOrder(certifications, 26);
    FlatInOrder(unknown, 27);
    JoinInOrder(certifications, unknown, 26, 26, 27);
  }

  /** A list all of whose problems concern entries of one wildcard rule is in order. */
  lemma {:induction false} FlatInOrder(ps: seq<Problem>, r: nat)
    requires r == 26 || r == 27
    requires forall i :: 0 <= i < |ps| ==> InstructorRank(ps[i].key) == r
    ensures InInstructorOrder(ps) && RankedWithin(ps, r, r)
  {
    if ps != [] {
      FlatInOrder(ps[1..], r);
      assert Ranks(ps) == [r] + Ranks(ps[1..]);
      forall i | 0 <= i < |Ranks(ps)| ensures Ranks(ps)[i] == r {
        if i > 0 { assert Ranks(ps)[i] == Ranks(ps[1..])[i - 1]; }
      }
    }
  }

  /** The instructor form's problems come in the order the framework runs its
      rules: the profile columns, `specializations`, `primary_specialization`,
      and then the expanded `certifications.*` and `specializations.*`
      entries. */
  lemma InstructorProblemsInOrder(c: Checks, f: InstructorForm, emails: set<string>, catalogue: set<nat>)
    ensures InInstructorOrder(InstructorProblems(c, f, emails, catalogue))
  {
    var profile := ProfileProblems(c, f.profile, emails);
    var chosen := SpecializationProblems(f.specializations, f.primary);
    var wildcards := CertificationProblems(f.certifications, 0) + UnknownSpecializations(f.specializations, catalogue, 0);
    assert InstructorProblems(c, f, emails, catalogue) == profile + chosen + wildcards;
    ProfileProblemsInOrder(c, f.profile, emails);
    SpecializationProblemsInOrder(f.specializations, f.primary);
    WildcardsInOrder(CertificationProblems(f.certifications, 0), UnknownSpecializations(f.specializations, catalogue, 0));
    JoinInOrder(profile, chosen, 0, 21, 25);
    JoinInOrder(profile + chosen, wildcards, 0, 25, 27);
  }

  // ---------------------------------------------------------------------------
  // Sales staff and all-around staff registration
  // ---------------------------------------------------------------------------

  /** The rules on a staff member's optional fields hold. */
  predicate StaffDetailsAccepted(c: Checks, f: StaffForm) {
    && OptionalWithin(f.middleName, 100)
    && (f.dateOfBirth.None? || Blank(f.dateOfBirth.value) || c.isDate(f.dateOfBirth.value))
    && OptionalAmong(f.gender, Genders)
  }

  /** The rules on a staff member's email, name and phone hold. */
  predicate StaffContactAccepted(c: Checks, f: StaffForm, emails: set<string>) {
    && !Blank(f.email) && c.isEmail(f.email) && f.email !in emails
    && Filled(f.firstName, 100) && Filled(f.lastName, 100)
    && PhoneRule(f.phone)
  }

  /** Every rule of the staff form holds. */
  predicate StaffAccepted(c: Checks, f: StaffForm, emails: set<string>) {
    StaffContactAccepted(c, f, emails) && StaffDetailsAccepted(c, f)
  }

  /** The rules on a staff member's email, name and phone. */
  function StaffContactProblems(c: Checks, f: StaffForm, emails: set<string>): (ps: seq<Problem>)
    ensures ps == [] <==> StaffContactAccepted(c, f, emails)
    ensures TrackedIn(ps) ==
              Tracked(!Blank(f.email) && c.isEmail(f.email) && f.email in emails,
                      !Blank(f.phone) && !PhoneRule(f.phone), false, false, false)
  {
    var ps := RequiredEmail(UserEmail, f.email, c, f.email in emails, Unique)
      + RequiredString(FirstName, f.firstName, 100)
      + RequiredString(LastName, f.lastName, 100)
      + RequiredPhone(Phone, f.phone);
    TrackedInMembers(ps);
    ps
  }

  /** The rules on a staff member's optional fields. */
  function StaffDetailProblems(c: Checks, f: StaffForm): (ps: seq<Problem>)
    ensures ps == [] <==> StaffDetailsAccepted(c, f)
    ensures Untracked(ps)
  {
    var ps := NullableString(MiddleName, f.middleName, 100)
      + NullableDate(DateOfBirth, f.dateOfBirth, c)
      + NullableIn(Gender, f.gender, Genders);
    TrackedInMembers(ps);
    ps
  }

  /** The rules of `registerSalesStaff` and `registerStaff` (they are identical):
      the request is accepted exactly when every rule holds, and it reports a
      duplicate email and a malformed phone exactly when each happens. */
  function StaffProblems(c: Checks, f: StaffForm, emails: set<string>): (ps: seq<Problem>)
    ensures ps == [] <==> StaffAccepted(c, f, emails)
    ensures TrackedIn(ps) ==
              Tracked(!Blank(f.email) && c.isEmail(f.email) && f.email in emails,
                      !Blank(f.phone) && !PhoneRule(f.phone), false, false, false)
  {
    var contact := StaffContactProblems(c, f, emails);
    var details := StaffDetailProblems(c, f);
    TrackedAppend(contact, details);
    contact + details
  }

  // ---------------------------------------------------------------------------
  // Password setup and login
  // ---------------------------------------------------------------------------

  /** `required|confirmed` plus `Password::min(8)` on the new password. */
  function NewPasswordProblems(password: string, confirmation: string): (ps: seq<Problem>)
    ensures Keyed(ps, UserPassword)
    ensures ps == [] <==> !Blank(password) && password == confirmation && |password| >= 8
  {
    if Blank(password) then [Problem(UserPassword, Required)]
    else
      (if password == confirmation then [] else [Problem(UserPassword, Confirmed)])
      + (if |password| >= 8 then [] else [Problem(UserPassword, MinLength(8))])
  }

  /** The rules of `processCreateAccount`: the email must be registered, the
      password confirmed and at least eight characters, the role one of the four. */
  function CreateAccountProblems(c: Checks, f: CreateAccountForm, emails: set<string>): (ps: seq<Problem>)
    ensures ps == [] <==> && !Blank(f.email) && c.isEmail(f.email) && f.email in emails
                          && !Blank(f.password) && f.password == f.confirmation && |f.password| >= 8
                          && f.role in RoleSlugs
    ensures Problem(UserEmail, Exists) in ps <==> !Blank(f.email) && c.isEmail(f.email) && f.email !in emails
  {
    RoleSlugsNotBlank();
    RequiredEmail(UserEmail, f.email, c, f.email !in emails, Exists)
    + NewPasswordProblems(f.password, f.confirmation)
    + RequiredIn(RoleField, f.role, RoleSlugs)
  }

  /** The rules of `login`: `user_email` required and an email, `user_password` required. */
  function LoginProblems(c: Checks, f: LoginForm): (ps: seq<Problem>)
    ensures ps == [] <==> !Blank(f.email) && c.isEmail(f.email) && !Blank(f.password)
    ensures Blank(f.email) ==> Problem(UserEmail, Required) in ps
    ensures Blank(f.password) ==> Problem(UserPassword, Required) in ps
  {
    (if Blank(f.email) then [Problem(UserEmail, Required)]
     else if c.isEmail(f.email) then [] else [Problem(UserEmail, EmailFormat)])
    + (if Blank(f.password) then [Problem(UserPassword, Required)] else [])
  }
}
