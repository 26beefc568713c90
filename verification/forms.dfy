/** The request payloads of the registration, password-setup and login forms,
    as the server receives them, and the validation rules the framework
    supplies but the repository does not define. */
module Forms {
  import opened Common

  /** The framework's `email`, `date` and `integer` rules. They are library code,
      so the model takes them as given predicates. `asInteger` yields the value
      of a string the `integer` rule accepts, and `None` for any other string.
      `asNumber` is PHP's `is_numeric` with the number it denotes: the size
      that `min` compares for a numeric string under a numeric rule. */
  datatype Checks = Checks(
    isEmail: string -> bool,
    isDate: string -> bool,
    asInteger: string -> Option<int>,
    asNumber: string -> Option<real>)

  /** `registerStudent`'s fields. An absent or empty optional field is `None`. */
  datatype StudentForm = StudentForm(
    email: string,
    firstName: string,
    lastName: string,
    phone: string,
    middleName: Option<string>,
    suffix: Option<string>,
    dateOfBirth: Option<string>,
    gender: Option<string>,
    instrumentId: Option<nat>,
    skillLevel: Option<string>,
    musicGoals: Option<string>)

  /** The columns an instructor registration writes to the instructor table. */
  datatype InstructorProfile = InstructorProfile(
    email: string,
    firstName: string,
    lastName: string,
    middleName: Option<string>,
    suffix: Option<string>,
    phone: string,
    dateOfBirth: string,
    gender: string,
    nationality: Option<string>,
    addressLine1: string,
    addressLine2: Option<string>,
    city: string,
    province: string,
    postalCode: string,
    country: string,
    emergencyContactName: string,
    emergencyContactRelationship: string,
    emergencyContactPhone: string,
    educationLevel: string,
    musicDegree: Option<string>,
    yearsOfExperience: string,
    languagesSpoken: Option<string>,
    teachingStyle: Option<string>,
    bio: Option<string>)

  /** `registerInstructor`'s fields: the profile, the certification entries
      (validated, not stored), the ticked specialization ids and the primary one. */
  datatype InstructorForm = InstructorForm(
    profile: InstructorProfile,
    certifications: seq<string>,
    specializations: seq<nat>,
    primary: Option<nat>)

  /** The fields shared by the sales-staff and all-around-staff registrations. */
  datatype StaffForm = StaffForm(
    email: string,
    firstName: string,
    lastName: string,
    phone: string,
    middleName: Option<string>,
    dateOfBirth: Option<string>,
    gender: Option<string>)

  /** The password-setup request: the (read-only) email, the password, its
      confirmation and the `role` slug the handler requires. The page itself
      has no `role` input, so a request sent from it carries the empty string
      there. */
  datatype CreateAccountForm = CreateAccountForm(
    email: string,
    password: string,
    confirmation: string,
    role: string)

  datatype LoginForm = LoginForm(email: string, password: string)
}
