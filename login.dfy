/**
 * The login form's check: both fields must have passed their own
 * validation, and the authentication backend must return an account.
 */
module Login {
  import opened Wrappers
  import opened Accounts
  import opened Fields

  const NotEnteredMessage: string := "Username and/or Password is not entered"
  const InvalidCredentialsMessage: string := "Invalid username/password"
  const LoginFieldMaxLength: nat := 32

  /** What the authentication backend does with a name and a password. */
  datatype AuthOutcome =
    | Raised                      // it raised an exception
    | NoUser                      // it found no account for these credentials
    | Authenticated(user: Account)

  /**
   * `UserLoginForm.clean` over the cleaned data, where an absent entry is a
   * field that failed its own validation: a missing field or a backend that
   * raises gives the "not entered" error, a backend that finds nobody the
   * "invalid" error, and otherwise the form yields the account the backend found.
   */
  function CleanLogin(username: Option<string>, password: Option<string>,
                      authenticate: (string, string) -> AuthOutcome): (r: Result<Account, string>)
    ensures r.Success? <==>
      username.Some? && password.Some? && authenticate(username.value, password.value).Authenticated?
    ensures r.Success? ==> r.value == authenticate(username.value, password.value).user
    ensures r == Failure(NotEnteredMessage) <==>
      username.None? || password.None? || authenticate(username.value, password.value).Raised?
    ensures r == Failure(InvalidCredentialsMessage) <==>
      username.Some? && password.Some? && authenticate(username.value, password.value).NoUser?
  {
    if username.None? || password.None? then Failure(NotEnteredMessage)
    else
      match authenticate(username.value, password.value)
      case Raised => Failure(NotEnteredMessage)
      case NoUser => Failure(InvalidCredentialsMessage)
      case Authenticated(user) => Success(user)
  }

  /**
   * The login form on the submitted strings, each a required field of at
   * most 32 characters: it logs in iff both fields pass and the backend finds
   * an account, reports "not entered" iff a field fails or the backend
   * raises, and "invalid" iff the backend finds nobody.
   */
  function LoginFormClean(username: string, password: string,
                          authenticate: (string, string) -> AuthOutcome): (r: Result<Account, string>)
    ensures r.Success? <==>
      FieldsEntered(username, password) && authenticate(username, password).Authenticated?
    ensures r.Success? ==> r.value == authenticate(username, password).user
    ensures r == Failure(NotEnteredMessage) <==>
      !FieldsEntered(username, password) || authenticate(username, password).Raised?
    ensures r == Failure(InvalidCredentialsMessage) <==>
      FieldsEntered(username, password) && authenticate(username, password).NoUser?
  {
    CleanLogin(CleanedCharField(Username, username, LoginFieldMaxLength),
               CleanedCharField(Password, password, LoginFieldMaxLength),
               authenticate)
  }

  /** Both login fields passed their own validation: non-empty and at most 32 characters. */
  predicate FieldsEntered(username: string, password: string)
  {
    0 < |username| <= LoginFieldMaxLength && 0 < |password| <= LoginFieldMaxLength
  }

  /**
   * A backend that looks the name up exactly and compares the stored
   * credential with the one derived from the password.
   */
  function PasswordBackend(accounts: map<string, Account>): (string, string) -> AuthOutcome
  {
    (u: string, p: string) =>
      if u in accounts && accounts[u].credential == HashOf(p) then Authenticated(accounts[u]) else NoUser
  }

  /** An empty or over-long field is reported as not entered, whatever the backend would say. */
  lemma MissingFieldNotEntered(username: string, password: string,
                               authenticate: (string, string) -> AuthOutcome)
    requires username == "" || |username| > LoginFieldMaxLength || password == "" || |password| > LoginFieldMaxLength
    ensures LoginFormClean(username, password, authenticate) == Failure(NotEnteredMessage)
  {
  }

  /** The outcome depends only on what the backend answers, not on how it reached that answer. */
  lemma OnlyTheAnswerMatters(username: string, password: string,
                             auth1: (string, string) -> AuthOutcome, auth2: (string, string) -> AuthOutcome)
    requires auth1(username, password) == auth2(username, password)
    ensures LoginFormClean(username, password, auth1) == LoginFormClean(username, password, auth2)
  {
  }

  /**
   * With the password backend, an unknown name and a known name with a wrong
   * password are answered with the same error.
   */
  lemma UnknownUserLooksLikeWrongPassword(accounts: map<string, Account>,
                                          unknown: string, anyPassword: string,
                                          known: string, wrongPassword: string)
    requires 0 < |unknown| <= LoginFieldMaxLength && 0 < |anyPassword| <= LoginFieldMaxLength
    requires 0 < |known| <= LoginFieldMaxLength && 0 < |wrongPassword| <= LoginFieldMaxLength
    requires unknown !in accounts
    requires known in accounts && accounts[known].credential != HashOf(wrongPassword)
    ensures LoginFormClean(unknown, anyPassword, PasswordBackend(accounts)) == Failure(InvalidCredentialsMessage)
    ensures LoginFormClean(known, wrongPassword, PasswordBackend(accounts)) == Failure(InvalidCredentialsMessage)
  {
  }

  /** With the password backend, the stored name and its password log in as that account. */
  lemma RightPasswordLogsIn(accounts: map<string, Account>, username: string, password: string)
    requires 0 < |username| <= LoginFieldMaxLength && 0 < |password| <= LoginFieldMaxLength
    requires username in accounts && accounts[username].credential == HashOf(password)
    ensures LoginFormClean(username, password, PasswordBackend(accounts)) == Success(accounts[username])
  {
  }
}
