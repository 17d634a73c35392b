/**
 * The user-registration form: its declared fields, the three validation
 * hooks (username, password, confirmation) and the order in which the form
 * reports their errors.
 */
module Registration {
  import opened Wrappers
  import opened PyStrings
  import opened Charsets
  import opened Accounts
  import opened Fields
  import Phone

  function Spaces(n: nat): (r: string)
    ensures |r| == n && forall i :: 0 <= i < n ==> r[i] == ' '
  {
    seq(n, _ => ' ')
  }

  // The messages, as the string literals spell them (a backslash at the end of
  // a line inside a literal keeps the next line's indentation).
  const UsernameFormatMessage: string := "Only letters, digits, period  are allowed in username"
  const UsernameTakenMessage: string := "Username already exists."
  const PasswordFormatMessage: string := "Only letters, digits and punctuation" + Spaces(40) + "are allowed in password"
  const PasswordMismatchMessage: string := "Passwords do not match"
  const PhoneFormatMessage: string :=
    "Phone number must be entered " + Spaces(50) + "in the format: '+999999999'." + Spaces(49) + "Up to 15 digits allowed."

  const UsernameMaxLength: nat := 32
  const PasswordMaxLength: nat := 32
  const NameMaxLength: nat := 32
  const InstituteMaxLength: nat := 128
  const DepartmentMaxLength: nat := 64

  /** The submitted form, one string per declared field. */
  datatype RegistrationData = RegistrationData(
    username: string,
    email: string,
    password: string,
    confirmPassword: string,
    firstName: string,
    lastName: string,
    phoneNumber: string,
    institute: string,
    department: string,
    position: string)

  /** The form's cleaned data once every field has passed. */
  datatype CleanedRegistration = CleanedRegistration(
    username: string,
    email: string,
    password: string,
    confirmPassword: string,
    firstName: string,
    lastName: string,
    phoneNumber: string,
    institute: string,
    department: string,
    position: Position)

  /** The format test of `clean_username`: `u_name.strip(UNAME_CHARS)` leaves nothing. */
  lemma UsernameFormatTest(uName: string)
    ensures Strip(uName, UnameChars) == [] <==> UsernameCharsOk(uName)
  {
    StripEmptyIff(uName, UnameChars);
    forall i | 0 <= i < |uName| {
      UnameCharsMembers(uName[i]);
    }
  }

  /** The format test of `clean_password`: `pwd.strip(PWD_CHARS)` leaves nothing. */
  lemma PasswordFormatTest(pwd: string)
    ensures Strip(pwd, PwdChars) == [] <==> PasswordCharsOk(pwd)
  {
    StripEmptyIff(pwd, PwdChars);
    forall i | 0 <= i < |pwd| {
      PwdCharsMembers(pwd[i]);
    }
  }

  /**
   * `clean_username`: reject a name with a character outside `UNAME_CHARS`,
   * then a name some account has exactly (case included); otherwise return
   * the name as submitted, not lowered.
   */
  function CleanUsername(accounts: map<string, Account>, uName: string): (r: Result<string, string>)
    ensures r.Success? <==> UsernameCharsOk(uName) && uName !in accounts
    ensures r.Success? ==> r.value == uName
    ensures r == Failure(UsernameFormatMessage) <==> !UsernameCharsOk(uName)
    ensures r == Failure(UsernameTakenMessage) <==> UsernameCharsOk(uName) && uName in accounts
  {
    UsernameFormatTest(uName);
    if Strip(uName, UnameChars) != [] then Failure(UsernameFormatMessage)
    else if uName in accounts then Failure(UsernameTakenMessage)
    else Success(uName)
  }

  /** `clean_password`: reject a character outside `PWD_CHARS`; otherwise return the password unchanged. */
  function CleanPassword(pwd: string): (r: Result<string, string>)
    ensures r.Success? <==> PasswordCharsOk(pwd)
    ensures r.Success? ==> r.value == pwd
    ensures r.Failure? ==> r.error == PasswordFormatMessage
  {
    PasswordFormatTest(pwd);
    if Strip(pwd, PwdChars) != [] then Failure(PasswordFormatMessage) else Success(pwd)
  }

  /**
   * `clean_confirm_password`: the confirmation must equal the password as
   * submitted (`self.data`), whether or not that password passed its own checks.
   */
  function CleanConfirmPassword(confirm: string, submittedPassword: string): (r: Result<string, string>)
    ensures r.Success? <==> confirm == submittedPassword
    ensures r.Success? ==> r.value == confirm
    ensures r.Failure? ==> r.error == PasswordMismatchMessage
  {
    if confirm != submittedPassword then Failure(PasswordMismatchMessage) else Success(confirm)
  }

  function UsernameErrors(accounts: map<string, Account>, uName: string): seq<FieldError>
  {
    var e := CharFieldErrors(Username, uName, UsernameMaxLength);
    if e != [] then e else HookErrors(Username, CleanUsername(accounts, uName))
  }

  function PasswordErrors(pwd: string): seq<FieldError>
  {
    var e := CharFieldErrors(Password, pwd, PasswordMaxLength);
    if e != [] then e else HookErrors(Password, CleanPassword(pwd))
  }

  function ConfirmPasswordErrors(confirm: string, submittedPassword: string): seq<FieldError>
  {
    var e := CharFieldErrors(ConfirmPassword, confirm, PasswordMaxLength);
    if e != [] then e else HookErrors(ConfirmPassword, CleanConfirmPassword(confirm, submittedPassword))
  }

  /** The email field: required; its address-format check is not modelled. */
  function EmailErrors(email: string): seq<FieldError>
  {
    if email == "" then [Required(Email)] else []
  }

  /** The phone field: required, then the pattern, with the field's own error message. */
  function PhoneNumberErrors(phone: string): seq<FieldError>
  {
    if phone == "" then [Required(PhoneNumber)]
    else if !Phone.MatchesPhonePattern(phone) then [Invalid(PhoneNumber, PhoneFormatMessage)]
    else []
  }

  /** The position field: required, then one of the two declared choices. */
  function PositionErrors(position: string): seq<FieldError>
  {
    if position == "" then [Required(PositionChoice)]
    else if ParsePosition(position).None? then [NotAChoice(PositionChoice)]
    else []
  }

  /**
   * Every error the form reports, field by field in declaration order; a
   * field's validation hook runs only once the field's own checks passed.
   */
  function FormErrors(accounts: map<string, Account>, d: RegistrationData): (errs: seq<FieldError>)
    ensures errs == [] <==> Acceptable(accounts, d)
  {
    UsernameErrors(accounts, d.username)
    + EmailErrors(d.email)
    + PasswordErrors(d.password)
    + ConfirmPasswordErrors(d.confirmPassword, d.password)
    + CharFieldErrors(FirstName, d.firstName, NameMaxLength)
    + CharFieldErrors(LastName, d.lastName, NameMaxLength)
    + PhoneNumberErrors(d.phoneNumber)
    + CharFieldErrors(Institute, d.institute, InstituteMaxLength)
    + CharFieldErrors(Department, d.department, DepartmentMaxLength)
    + PositionErrors(d.position)
  }

  /** Everything the registration form demands of a submission, field by field. */
  predicate Acceptable(accounts: map<string, Account>, d: RegistrationData)
  {
    && 0 < |d.username| <= UsernameMaxLength && UsernameCharsOk(d.username) && d.username !in accounts
    && d.email != ""
    && 0 < |d.password| <= PasswordMaxLength && PasswordCharsOk(d.password)
    && 0 < |d.confirmPassword| <= PasswordMaxLength && d.confirmPassword == d.password
    && 0 < |d.firstName| <= NameMaxLength
    && 0 < |d.lastName| <= NameMaxLength
    && Phone.IsPhoneNumber(d.phoneNumber)
    && 0 < |d.institute| <= InstituteMaxLength
    && 0 < |d.department| <= DepartmentMaxLength
    && (d.position == "coordinator" || d.position == "instructor")
  }

  /**
   * The form is valid exactly when every field is acceptable, and then the
   * cleaned data is the submission unchanged: in particular the username is
   * not lowered here.
   */
  function Validate(accounts: map<string, Account>, d: RegistrationData): (r: Result<CleanedRegistration, seq<FieldError>>)
    ensures r.Success? <==> Acceptable(accounts, d)
    ensures r.Failure? ==> r.error != []
    ensures r.Success? ==>
      && r.value.username == d.username && r.value.email == d.email
      && r.value.password == d.password && r.value.confirmPassword == d.confirmPassword
      && r.value.firstName == d.firstName && r.value.lastName == d.lastName
      && r.value.phoneNumber == d.phoneNumber && r.value.institute == d.institute
      && r.value.department == d.department && PositionValue(r.value.position) == d.position
  {
    var errors := FormErrors(accounts, d);
    if errors == [] then
      Success(CleanedRegistration(
        d.username, d.email, d.password, d.confirmPassword, d.firstName, d.lastName,
        d.phoneNumber, d.institute, d.department, ParsePosition(d.position).value))
    else
      Failure(errors)
  }

  /** A username with a character other than a letter, digit, `.` or `_` is rejected for its format. */
  lemma BadUsernameRejected(accounts: map<string, Account>, d: RegistrationData, i: nat)
    requires 0 < |d.username| <= UsernameMaxLength
    requires i < |d.username| && !IsUsernameChar(d.username[i])
    ensures Invalid(Username, UsernameFormatMessage) in FormErrors(accounts, d)
    ensures Validate(accounts, d).Failure?
  {
  }

  /** A well-formed username that some account has exactly is rejected as taken. */
  lemma TakenUsernameRejected(accounts: map<string, Account>, d: RegistrationData)
    requires 0 < |d.username| <= UsernameMaxLength && UsernameCharsOk(d.username)
    requires d.username in accounts
    ensures Invalid(Username, UsernameTakenMessage) in FormErrors(accounts, d)
    ensures Invalid(Username, UsernameFormatMessage) !in FormErrors(accounts, d)
  {
    assert UsernameErrors(accounts, d.username) == [Invalid(Username, UsernameTakenMessage)];
    assert Invalid(Username, UsernameFormatMessage) !in UsernameErrors(accounts, d.username);
  }

  /** A password with a space, a control or a non-ASCII character is rejected for its format. */
  lemma BadPasswordRejected(accounts: map<string, Account>, d: RegistrationData, i: nat)
    requires 0 < |d.password| <= PasswordMaxLength
    requires i < |d.password| && !IsPasswordChar(d.password[i])
    ensures Invalid(Password, PasswordFormatMessage) in FormErrors(accounts, d)
  {
  }

  /**
   * A confirmation of valid length that differs from the submitted password
   * is reported as a mismatch, even when that password failed its own checks.
   */
  lemma MismatchRejected(accounts: map<string, Account>, d: RegistrationData)
    requires 0 < |d.confirmPassword| <= PasswordMaxLength
    requires d.confirmPassword != d.password
    ensures Invalid(ConfirmPassword, PasswordMismatchMessage) in FormErrors(accounts, d)
  {
  }

  /**
   * The confirmation is compared with the raw password: a password rejected
   * for its characters, confirmed identically, draws no mismatch error.
   */
  lemma IdenticalConfirmationNeverMismatches(accounts: map<string, Account>, d: RegistrationData)
    requires d.confirmPassword == d.password
    ensures Invalid(ConfirmPassword, PasswordMismatchMessage) !in FormErrors(accounts, d)
  {
  }

  /** `_` passes the format check although the field's help text and message name only the period. */
  lemma UnderscoreAllowed(accounts: map<string, Account>)
    requires "first_last" !in accounts
    ensures CleanUsername(accounts, "first_last") == Success("first_last")
  {
    var s := "first_last";
    forall i | 0 <= i < |s| ensures IsUsernameChar(s[i]) {
    }
  }

  /**
   * Uniqueness is checked on the name as submitted: a name differing from an
   * existing account only in case passes, although its lowered form, which
   * saving would store, is taken.
   */
  lemma CaseVariantPasses(accounts: map<string, Account>)
    requires "alice" in accounts && "Alice" !in accounts
    ensures CleanUsername(accounts, "Alice") == Success("Alice")
    ensures Lower("Alice") in accounts
  {
    var s := "Alice";
    forall i | 0 <= i < |s| ensures IsUsernameChar(s[i]) {
    }
    assert Lower(s) == "alice";
  }

  /**
   * Uniqueness is checked on the name as submitted, but the lowered name is
   * what gets stored: once an acceptable submission is stored under its
   * lowered name, that lowered name is rejected as taken, while the name as
   * submitted passes again exactly when it had an upper-case letter.
   */
  lemma StoredNameTakenSubmittedNameNot(accounts: map<string, Account>, d: RegistrationData, a: Account)
    requires Acceptable(accounts, d)
    ensures CleanUsername(accounts[Lower(d.username) := a], Lower(d.username)) == Failure(UsernameTakenMessage)
    ensures CleanUsername(accounts[Lower(d.username) := a], d.username).Success? <==> d.username != Lower(d.username)
  {
    LoweredUsernameStaysValid(d.username);
  }

  /**
   * A name that passed the format check stays within the username character
   * set when lowered, keeps its length, and is then entirely lower-case.
   */
  lemma LoweredUsernameStaysValid(uName: string)
    requires UsernameCharsOk(uName)
    ensures UsernameCharsOk(Lower(uName))
    ensures |Lower(uName)| == |uName|
    ensures IsLowercase(Lower(uName))
  {
  }
}
