/**
 * The account and profile tables, and the registration form's `save`,
 * which writes to them step by step.
 */
module AccountStore {
  import opened Wrappers
  import opened PyStrings
  import opened Accounts
  import opened Registration
  import Login

  /** `timedelta(days=3)` in microseconds, the resolution of the timestamps. */
  const ActivationKeyLifetime: int := 3 * 24 * 60 * 60 * 1_000_000

  class Store {
    /** The user table, keyed by username. */
    var accounts: map<string, Account>
    /** The profile table, keyed by the owning account's username. */
    var profiles: map<string, Profile>

    /** Every row sits under its own name, and every profile has an owning account. */
    ghost predicate Valid()
      reads this
    {
      && (forall u :: u in accounts ==> accounts[u].username == u)
      && (forall u :: u in profiles ==> u in accounts && profiles[u].owner == u)
    }

    constructor (accounts: map<string, Account>, profiles: map<string, Profile>)
      requires forall u :: u in accounts ==> accounts[u].username == u
      requires forall u :: u in profiles ==> u in accounts && profiles[u].owner == u
      ensures Valid()
      ensures this.accounts == accounts && this.profiles == profiles
    {
      this.accounts := accounts;
      this.profiles := profiles;
    }

    /** `User.objects.create_user(name, email, password)`: a new account without names yet. */
    method CreateUser(name: string, email: string, password: string) returns (user: Account)
      requires Valid()
      requires name !in accounts
      modifies this
      ensures Valid()
      ensures user == Account(name, email, HashOf(password), "", "")
      ensures accounts == old(accounts)[name := user]
      ensures profiles == old(profiles)
    {
      user := Account(name, email, HashOf(password), "", "");
      accounts := accounts[name := user];
    }

    /** `user.save()`: write the account's fields back to its row. */
    method SaveUser(user: Account)
      requires Valid()
      requires user.username in accounts
      modifies this
      ensures Valid()
      ensures accounts == old(accounts)[user.username := user]
      ensures profiles == old(profiles)
    {
      accounts := accounts[user.username := user];
    }

    /** `profile.save()`: write the profile to the row of its owner. */
    method SaveProfile(profile: Profile)
      requires Valid()
      requires profile.owner in accounts
      modifies this
      ensures Valid()
      ensures profiles == old(profiles)[profile.owner := profile]
      ensures accounts == old(accounts)
    {
      profiles := profiles[profile.owner := profile];
    }

    /** `Profile.objects.get(user=owner)`: none when the account has no profile. */
    method GetProfile(owner: string) returns (p: Option<Profile>)
      requires Valid()
      ensures p.Some? <==> owner in profiles
      ensures p.Some? ==> p.value == profiles[owner] && p.value.owner == owner
    {
      p := if owner in profiles then Some(profiles[owner]) else None;
    }

    /**
     * `save`: store the account under the lowered username, set its names,
     * attach a profile holding the remaining fields, a key generated from the
     * stored name and an expiry three days after `now`, and return the stored
     * name, the plain password and the key read back from the stored profile.
     * Nothing else in either table changes.
     */
    method Save(form: CleanedRegistration, now: int, generateKey: string -> string)
      returns (name: string, password: string, key: string)
      requires Valid()
      requires Lower(form.username) !in accounts
      modifies this
      ensures Valid()
      ensures name == Lower(form.username) && password == form.password
      ensures accounts == old(accounts)[name := Account(name, form.email, HashOf(form.password), form.firstName, form.lastName)]
      ensures profiles == old(profiles)[name := Profile(name, form.institute, form.department, form.position,
                                                          form.phoneNumber, generateKey(name), now + ActivationKeyLifetime)]
      ensures key == profiles[name].activationKey
    {
      name := Lower(form.username);
      password := form.password;
      var user := CreateUser(name, form.email, password);
      user := user.(firstName := form.firstName);
      user := user.(lastName := form.lastName);
      SaveUser(user);

      // The profile's initial values stand for the model's defaults; each is overwritten below.
      var profile := Profile(user.username, "", "", Coordinator, "", "", 0);
      profile := profile.(institute := form.institute);
      profile := profile.(department := form.department);
      profile := profile.(position := form.position);
      profile := profile.(phoneNumber := form.phoneNumber);
      profile := profile.(activationKey := generateKey(user.username));
      profile := profile.(keyExpiryTime := now + ActivationKeyLifetime);
      SaveProfile(profile);

      var stored := GetProfile(user.username);
      key := stored.value.activationKey;
    }
  }

  /**
   * The registration of "Alice.01" into an empty store: the account is stored
   * as "alice.01" with its key expiring three days later; submitting
   * "alice.01" again is rejected as taken, while "Alice.01" again passes the
   * uniqueness check. With a backend that looks names up exactly, the stored
   * name logs in and the name as typed at registration does not.
   */
  method RegisterAliceExample(now: int, generateKey: string -> string)
    returns (name: string, expiry: int, again: Result<string, string>, sameCase: Result<string, string>,
             loginStored: Result<Account, string>, loginAsTyped: Result<Account, string>)
    ensures name == "alice.01"
    ensures expiry == now + ActivationKeyLifetime
    ensures again == Failure(UsernameTakenMessage)
    ensures sameCase == Success("Alice.01")
    ensures loginStored.Success? && loginStored.value.username == "alice.01"
    ensures loginAsTyped == Failure(Login.InvalidCredentialsMessage)
  {
    var store := new Store(map[], map[]);
    var d := RegistrationData("Alice.01", "a@b.com", "Secret!9", "Secret!9", "Alice", "Smith",
                              "+919812345678", "IIT Bombay", "Computer Science", "coordinator");
    AliceIsAcceptable(d);
    AliceNames();
    var cleaned := Validate(store.accounts, d);
    var password, key;
    name, password, key := store.Save(cleaned.value, now, generateKey);
    expiry := store.profiles[name].keyExpiryTime;
    again := CleanUsername(store.accounts, "alice.01");
    sameCase := CleanUsername(store.accounts, "Alice.01");
    loginStored := Login.LoginFormClean("alice.01", "Secret!9", Login.PasswordBackend(store.accounts));
    loginAsTyped := Login.LoginFormClean("Alice.01", "Secret!9", Login.PasswordBackend(store.accounts));
  }

  lemma AliceNames()
    ensures Lower("Alice.01") == "alice.01"
    ensures Charsets.UsernameCharsOk("alice.01") && Charsets.UsernameCharsOk("Alice.01")
  {
  }

  lemma AliceIsAcceptable(d: RegistrationData)
    requires d == RegistrationData("Alice.01", "a@b.com", "Secret!9", "Secret!9", "Alice", "Smith",
                                   "+919812345678", "IIT Bombay", "Computer Science", "coordinator")
    ensures Acceptable(map[], d)
  {
  }
}
