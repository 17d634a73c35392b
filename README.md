# Workshop booking: user registration and login, modelled in Dafny

This project models the registration and login logic of the workshop-booking
web application's form layer (`workshop_app/forms.py`):

- the character-set checks on usernames and passwords, which use Python's
  `str.strip(chars)` and test whether anything is left;
- the password-confirmation check, which compares against the password as
  submitted;
- the phone-number pattern `^\+?1?\d{9,15}$`, written as a hand-written
  backtracking recognizer;
- the field declarations (required, `max_length`, the two position choices)
  and the order in which the registration form reports its errors;
- `save`, which writes a new account and its profile to an in-memory store,
  one step at a time;
- the login form's check around an authentication backend.

Modules and files:

| file | module | models |
|---|---|---|
| `wrappers.dfy` | `Wrappers` | `Option`, `Result` |
| `pystrings.dfy` | `PyStrings` | `str.lstrip`/`rstrip`/`strip` with a character set, ASCII `str.lower` |
| `charsets.dfy` | `Charsets` | `ascii_letters`, `digits`, `punctuation`, `UNAME_CHARS`, `PWD_CHARS` |
| `phone.dfy` | `Phone` | the phone pattern and the language it accepts |
| `accounts.dfy` | `Accounts` | the account and profile records, the position choices |
| `fields.dfy` | `Fields` | required character fields with a maximum length, field errors |
| `registration.dfy` | `Registration` | `clean_username`, `clean_password`, `clean_confirm_password`, the whole form's validation |
| `store.dfy` | `AccountStore` | the account and profile tables as a class, `save` |
| `login.dfy` | `Login` | `UserLoginForm.clean` |

The account and profile rows are datatypes: a stored row is a value, and
`save` builds each one locally, field by field, before writing it. The tables
are the two `map` fields of the class `AccountStore.Store`, keyed by
username and by the owning account's username. `Store.Valid()` is the
invariant that every row sits under its own name and that every profile has
an owning account.

Points where the code differs from what its documentation says, and where
the model follows the code:

- `UNAME_CHARS` contains `_`, although the field's help text and its error
  message name only the period (`Registration.UnderscoreAllowed`).
- The uniqueness check looks the username up exactly as submitted, but `save`
  stores it lowered. A name that differs from an existing account only in
  case therefore passes validation (`Registration.StoredNameTakenSubmittedNameNot`,
  `Registration.CaseVariantPasses`, `AccountStore.RegisterAliceExample`). Registration is not case-insensitive.
- The pattern accepts 16 digits when the first of them is `1`: `1?` takes
  that `1` and `\d{9,15}` takes the other fifteen
  (`Phone.AcceptedExamples`). Sixteen digits starting
  with any other digit are rejected (`Phone.TooManyDigitsRejected`).
- The form reports the errors of every field, not only the first.
- Login has two errors, not one. A missing field, or a backend that raises,
  gives "Username and/or Password is not entered". A backend that finds no
  account gives "Invalid username/password", for an unknown name and for a
  wrong password alike.

The error messages are the source's string literals with their exact spacing.
A backslash at the end of a line inside a literal keeps the indentation of
the next line. So the password message has a gap of 40 spaces, and the
phone message has gaps of 51 and 49 spaces: the first line of that literal
also ends with a space before its backslash. "Username already exists." ends with a period.

## Model

| member | source | states |
|---|---|---|
| `PyStrings.LStrip` | workshop_app/forms.py:55 | the result is a suffix of the input, everything dropped is in the set, and the result does not start with a character of the set |
| `PyStrings.RStrip` | workshop_app/forms.py:55 | the result is a prefix of the input, everything dropped is in the set, and the result does not end with a character of the set |
| `PyStrings.Strip` | workshop_app/forms.py:55 | `s.strip(chars)`, the lstrip of the input followed by the rstrip of the rest: it returns the slice of `s` between a leading and a trailing run of `chars`, and the slice neither starts nor ends with a character of `chars` |
| `PyStrings.StripEmptyIff` | workshop_app/forms.py:55 | `s.strip(chars)` is empty iff every character of `s` is in `chars` |
| `PyStrings.Lower` | workshop_app/forms.py:88 | `u_name.lower()` on ASCII: it keeps the length, replaces each upper-case letter by its lower-case letter, keeps every other character, and leaves no upper-case letter |
| `PyStrings.LowerIdempotent` | workshop_app/forms.py:88 | lowering an already lowered name changes nothing |
| `PyStrings.LowerFixesLowercase` | workshop_app/forms.py:88 | a name without upper-case letters is stored as submitted |
| `Charsets.LettersConstant` | workshop_app/forms.py:8-11 | the letter constant is exactly Python's `ascii_letters` |
| `Charsets.DigitsConstant` | workshop_app/forms.py:7 | the digit constant is exactly Python's `digits` |
| `Charsets.PunctuationConstant` | workshop_app/forms.py:7 | the punctuation constant is exactly Python's `punctuation` |
| `Charsets.CharRangeMembers` | workshop_app/forms.py:7 | a character is in a run of ASCII characters iff it lies between the run's ends |
| `Charsets.LettersAreAsciiLetters` | workshop_app/forms.py:8-11 | a character is in `letters` iff it is an ASCII letter |
| `Charsets.DigitsAreDigits` | workshop_app/forms.py:7 | a character is in `digits` iff it is `0` to `9` |
| `Charsets.PunctuationIsAsciiSymbols` | workshop_app/forms.py:7 | a character is in `punctuation` iff it is printable ASCII, not a space, not a letter and not a digit |
| `Charsets.UnameCharsMembers` | workshop_app/forms.py:18 | a character is in `UNAME_CHARS` iff it is an ASCII letter, a digit, `.` or `_` |
| `Charsets.PwdCharsMembers` | workshop_app/forms.py:19 | a character is in `PWD_CHARS` iff it is printable ASCII other than the space |
| `Phone.MatchDigitsMeans` | workshop_app/forms.py:39 | `\d{min,max}$` matches exactly the all-digit strings whose length is between `min` and `max` |
| `Phone.OptionalOneMeans` | workshop_app/forms.py:39 | `1?\d{9,15}$` matches exactly 9 to 15 digits, or 16 digits starting with `1` |
| `Phone.MatchesPhonePattern` | workshop_app/forms.py:39 | the `RegexField` pattern as a backtracking recognizer. It accepts a string iff, after an optional `+`, it is 9 to 15 digits, or 16 digits starting with `1`, and nothing else |
| `Phone.AcceptedExamples` | workshop_app/forms.py:39 | nine digits, `+919812345678`, and sixteen digits starting with `1` are accepted |
| `Phone.EightDigitsRejected` | workshop_app/forms.py:39 | eight digits are rejected |
| `Phone.LetterRejected` | workshop_app/forms.py:39 | a letter anywhere makes the pattern fail |
| `Phone.TooManyDigitsRejected` | workshop_app/forms.py:39 | seventeen or more digits are rejected, and so are sixteen not starting with `1` |
| `Phone.TooFewDigitsRejected` | workshop_app/forms.py:39 | fewer than nine characters after the optional `+` are rejected |
| `Accounts.ParsePosition` | workshop_app/forms.py:21-24 | only "coordinator" and "instructor" are accepted, and the parsed choice gives back the submitted value |
| `Accounts.PositionRoundTrip` | workshop_app/forms.py:47-51 | each position's stored value parses back to that position |
| `Fields.CharFieldErrors` | workshop_app/forms.py:31-38 | a required character field has no error iff its value is non-empty and within its maximum length, and it has at most one error, about that field |
| `Fields.CleanedCharField` | workshop_app/forms.py:112-113 | the cleaned data holds a login field iff it is non-empty and at most its maximum length, and then holds it unchanged |
| `Fields.HookErrors` | workshop_app/forms.py:58 | a validation hook adds no error iff it returned a value, and otherwise exactly the message it raised |
| `Registration.UsernameFormatTest` | workshop_app/forms.py:55 | `u_name.strip(UNAME_CHARS)` is empty iff every character is an ASCII letter, a digit, `.` or `_` |
| `Registration.PasswordFormatTest` | workshop_app/forms.py:67 | `pwd.strip(PWD_CHARS)` is empty iff every character is printable ASCII other than the space |
| `Registration.CleanUsername` | workshop_app/forms.py:53-63 | accepts iff every character is allowed and no account has exactly that name; returns the name unchanged; the format error iff a character is not allowed, the "already exists" error iff the format is fine and the exact name is taken |
| `Registration.CleanPassword` | workshop_app/forms.py:65-70 | accepts iff every character is a letter, digit or punctuation, returns the password unchanged, and otherwise raises the password-format message |
| `Registration.CleanConfirmPassword` | workshop_app/forms.py:72-78 | accepts iff the confirmation equals the submitted password exactly, returns it unchanged, and otherwise raises "Passwords do not match" |
| `Registration.Validate` | workshop_app/forms.py:26-78 | the form is valid iff every field meets its declaration and its hook (`Acceptable`), a failure carries at least one error, and the cleaned data equals the submission, with the username not lowered |
| `Registration.FormErrors` | workshop_app/forms.py:31-78 | each field's own checks, then its `clean_<field>` hook, in declaration order. It reports no error iff the username, password and confirmation checks pass, every length limit holds, the phone fits the pattern and the position is one of the two choices |
| `Registration.BadUsernameRejected` | workshop_app/forms.py:53-58 | a username of valid length with a character outside letters, digits, `.` and `_` draws the username-format error, and the form is invalid |
| `Registration.TakenUsernameRejected` | workshop_app/forms.py:59-61 | a well-formed username that an account has exactly draws "Username already exists." and not the format error |
| `Registration.BadPasswordRejected` | workshop_app/forms.py:65-69 | a password of valid length with a character that is not printable non-space ASCII draws the password-format error |
| `Registration.MismatchRejected` | workshop_app/forms.py:72-76 | a confirmation of valid length that differs from the submitted password draws "Passwords do not match", whether or not the password itself passed |
| `Registration.IdenticalConfirmationNeverMismatches` | workshop_app/forms.py:74-78 | a confirmation equal to the submitted password never draws the mismatch error, even when that password was rejected |
| `Registration.UnderscoreAllowed` | workshop_app/forms.py:18 | a username containing `_` passes the format check |
| `Registration.CaseVariantPasses` | workshop_app/forms.py:59-63 | "Alice" passes the uniqueness check while an account "alice" exists, and "alice" is the name save would store |
| `Registration.StoredNameTakenSubmittedNameNot` | workshop_app/forms.py:59-63 | once an acceptable submission is stored under its lowered name, that lowered name is rejected as taken, and the name as submitted passes again iff it differs from its lowered form |
| `Registration.LoweredUsernameStaysValid` | workshop_app/forms.py:87-88 | a username that passed the format check, once lowered, still passes it, keeps its length and is all lower-case |
| `AccountStore.Store.CreateUser` | workshop_app/forms.py:91 | adds an account under the given name with the email, the password's credential and empty names, and changes nothing else |
| `AccountStore.Store.SaveUser` | workshop_app/forms.py:92-94 | writes the account's fields to its row, and changes nothing else |
| `AccountStore.Store.SaveProfile` | workshop_app/forms.py:105 | writes the profile to its owner's row, and changes nothing else |
| `AccountStore.Store.GetProfile` | workshop_app/forms.py:106 | returns the profile owned by the account iff there is one |
| `AccountStore.Store.Save` | workshop_app/forms.py:86-107 | the store gains exactly an account under the lowered name (submitted email, credential, first and last name) and a profile it owns (institute, department, position, phone, key generated from the stored name, expiry now + 3 days); nothing else changes; returns the lowered name, the password and the stored profile's key |
| `AccountStore.RegisterAliceExample` | workshop_app/forms.py:86-107 | registering "Alice.01" stores "alice.01" with expiry now + 3 days; "alice.01" is then rejected as taken, "Alice.01" passes the uniqueness check, the stored name logs in and the name as typed does not |
| `Login.CleanLogin` | workshop_app/forms.py:115-126 | returns the account iff both fields are present and the backend finds one; "not entered" iff a field is missing or the backend raises; "Invalid username/password" iff the backend finds no account |
| `Login.LoginFormClean` | workshop_app/forms.py:112-126 | the login form on the submitted strings. It logs in iff both fields are non-empty and at most 32 characters and the backend finds an account; "not entered" iff a field fails or the backend raises; "invalid" iff the backend finds nobody |
| `Login.MissingFieldNotEntered` | workshop_app/forms.py:112-123 | an empty or over-long field gives "not entered", whatever the backend would answer |
| `Login.OnlyTheAnswerMatters` | workshop_app/forms.py:120-126 | two backends that answer the same give the same outcome |
| `Login.UnknownUserLooksLikeWrongPassword` | workshop_app/forms.py:124-125 | with a backend that looks the name up exactly, an unknown name and a wrong password get the same error |
| `Login.RightPasswordLogsIn` | workshop_app/forms.py:120-126 | with that backend, a stored name and its password log in as that account |

## Left out

- The form and database framework: binding the request, the cleaned-data dictionary, the user and profile managers, and persistence. The submission is one `RegistrationData` value, and the tables are the two maps of `AccountStore.Store`.
- Whitespace trimming of character fields before validation is not modelled: the checks see the values as submitted.
- Email address validation is library behaviour that this code does not show. The model checks only that the field is not empty.
- Every input field is assumed present. A request without a `password` entry would make `clean_confirm_password` fail with a lookup error, and the model does not cover that.
- Password hashing: the stored credential is `HashOf(password)`, which only records which password it came from.
- `authenticate` is a function parameter. `Login.PasswordBackend` is a simple backend used only to state the login lemmas; the real backend also checks that the account is active, and the model does not cover that.
- `generate_activation_key` is not part of this model. It is a function parameter of the stored username; its randomness and uniqueness are not captured.
- `timezone.now()` is an integer parameter in microseconds.
- `\d` and `lower()` cover ASCII only. Python 3 also matches other Unicode digits and lowers non-ASCII letters. Python 2's locale-dependent `string.letters` is taken to be the ASCII letters.
- `$` in the phone pattern also matches just before a final newline. The model rejects such a newline.
- The database's case-folding collations, under which the exact username lookup would ignore case, are not modelled.
- AccountStore.Store.Save: requires the lowered name not to be stored yet. The database's unique constraint, which would reject a case variant that passed the uniqueness check, is not visible in this code.
- AccountStore.Store.Save: no write fails, so the gap between storing the account and storing its profile, which has no rollback, is not modelled.
- The texts of the framework's own field errors (required, too long, invalid choice) are represented by `FieldError` constructors. Only the hook messages and the phone message are spelled out.
- The commented-out email-uniqueness check is dead code.
- `ProfileForm`, `CreateWorkshop` and `ProposeWorkshopDateForm` only set initial values, labels and required flags on fields, and have no logic to model.
