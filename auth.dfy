/** The verification-code flows of src/controllers/authController.ts: registration
    (`register`, `verifyCode`), password reset (`verifyEmail`, `verifyCodeAndResetPassword`)
    and the guards of `login`.

    The two module-level maps `pendingRegistrations` and `pendingResetPassword` are fields of
    `AuthController`, beside the user table keyed by email (the column is unique). The clock,
    `Math.random`, the generated user id, the key derivation and the salt are parameters; the
    mail service is represented by the error it reports, if any. */
module Auth {
  import opened Common
  import opened Crypto

  /** `5 * 60 * 1000`: a code is valid for five minutes. */
  const CodeLifetimeMs: int := 300_000

  const NoPendingRegistration: string := "No pending registration found"
  const NoPendingReset: string := "No pending reset password request found"
  const InvalidCode: string := "Invalid verification code"
  const ExpiredCode: string := "Verification code expired"
  const CredentialsRequired: string := "Email and password required"
  const InvalidCredentials: string := "Invalid email or password"
  const DuplicateUser: string := "duplicate key value violates unique constraint"
  const EmailTooLong: string := "value too long for type character varying(255)"
  /** What scrypt throws for a password that is not a string, such as an absent one. */
  const PasswordNotString: string := "The \"password\" argument must be of type string"

  /** The length of the `varchar(255)` email column. */
  const EmailLength: nat := 255

  datatype User = User(id: string, email: string, password: string, createdAt: int, updatedAt: Option<int>)

  /** The user a registration will insert; its password is plain until the code is checked,
      and absent when the request body had none. */
  datatype NewUser = NewUser(id: string, email: string, password: Option<string>)

  datatype Registration = Registration(data: NewUser, code: string, expiresAt: int)
  datatype Reset = Reset(email: string, code: string, expiresAt: int)

  /** The users and both pending maps, all keyed by email. */
  datatype Tables = Tables(
    users: map<string, User>,
    registrations: map<string, Registration>,
    resets: map<string, Reset>)

  /** `Math.floor(100000 + Math.random() * 900000).toString()` for a draw in [0, 1): six decimal
      digits spelling a number from 100000 to 999999. */
  function GenerateCode(random: real): (code: string)
    requires 0.0 <= random < 1.0
    ensures |code| == 6 && AllDigits(code)
    ensures 100000 <= DigitsValue(code) <= 999999
  {
    var n := (100000.0 + random * 900000.0).Floor;
    assert 100000 <= n < 1000000;
    assert Pow10(5) == 100000 && Pow10(6) == 1000000;
    NatToStringLength(n, 6);
    NatToString(n)
  }

  /** The value a `varchar(255)` column stores for `email`: the text itself when it fits, the
      text cut to 255 characters when everything past them is spaces, otherwise None, which
      PostgreSQL reports as a value too long. */
  function EmailColumn(email: string): (stored: Option<string>)
    ensures |email| <= EmailLength ==> stored == Some(email)
    ensures stored.Some? <==>
      |email| <= EmailLength || forall i :: EmailLength <= i < |email| ==> email[i] == ' '
    ensures stored.Some? ==> |stored.value| <= EmailLength && stored.value <= email
  {
    if |email| <= EmailLength then Some(email)
    else if forall i :: EmailLength <= i < |email| ==> email[i] == ' ' then Some(email[..EmailLength])
    else None
  }

  function UserExists(email: string): string {
    "User with the email of " + email + " already exist"
  }

  function UserMissing(email: string): string {
    "User with the email of " + email + " does not exist"
  }

  function SendFailed(email: string, error: string): string {
    "Cannot send code to email: " + email + " - " + error
  }

  /** The checks both verification handlers make, in their order: an entry for the email, the
      same code, not past its expiry. None when all pass. */
  function CodeRefusal(found: bool, stored: string, expiresAt: int, code: string, now: int,
                       missing: string): (m: Option<string>)
    ensures m.None? <==> found && stored == code && now <= expiresAt
    ensures !found ==> m == Some(missing)
    ensures found && stored != code ==> m == Some(InvalidCode)
    ensures found && stored == code && now > expiresAt ==> m == Some(ExpiredCode)
  {
    if !found then Some(missing)
    else if stored != code then Some(InvalidCode)
    else if now > expiresAt then Some(ExpiredCode)
    else None
  }

  // ---------------------------------------------------------------------------------------
  // Registration

  /** `register`: an email that already has a user fails with 403 and changes nothing;
      otherwise the entry for the email is stored or replaced before the mail is sent, and
      stays even when sending fails. */
  function Register(t: Tables, email: string, password: Option<string>, userId: string, random: real,
                    now: int, sendError: Option<string>): (out: (Result<string>, Tables))
    requires 0.0 <= random < 1.0
    ensures email in t.users ==> out == (Fail(403, UserExists(email)), t)
    ensures email !in t.users ==>
      out.1 == t.(registrations := t.registrations[email :=
                     Registration(NewUser(userId, email, password), GenerateCode(random), now + CodeLifetimeMs)])
    ensures email !in t.users ==>
      out.0 == if sendError.Some? then Fail(404, SendFailed(email, sendError.value)) else Ok(email)
  {
    if email in t.users then (Fail(403, UserExists(email)), t)
    else
      var entry := Registration(NewUser(userId, email, password), GenerateCode(random), now + CodeLifetimeMs);
      var t' := t.(registrations := t.registrations[email := entry]);
      if sendError.Some? then (Fail(404, SendFailed(email, sendError.value)), t')
      else (Ok(email), t')
  }

  /** `verifyCode`: a refused code changes nothing. Otherwise the stored password is hashed,
      which throws for an absent one and changes nothing. The hash replaces the password in the
      entry itself, and the user is inserted; only then is the entry deleted. So when the insert
      fails, the entry stays, now holding the hash. It fails when the email does not fit the
      `varchar(255)` column, or when its stored value is taken meanwhile. */
  function VerifyCode(t: Tables, email: string, code: string, now: int, salt: string, kdf: Kdf)
    : (out: (Result<User>, Tables))
    requires IsSalt(salt)
    ensures out.1.resets == t.resets
    ensures email !in t.registrations ==> out == (Fail(404, NoPendingRegistration), t)
    ensures email in t.registrations && t.registrations[email].code != code
            ==> out == (Fail(404, InvalidCode), t)
    ensures (email in t.registrations && t.registrations[email].code == code
             && now > t.registrations[email].expiresAt) ==> out == (Fail(404, ExpiredCode), t)
    ensures (email in t.registrations && t.registrations[email].code == code
             && now <= t.registrations[email].expiresAt && t.registrations[email].data.password.None?)
            ==> out == (Thrown(PasswordNotString), t)
    ensures out.0.Ok? <==>
      email in t.registrations && t.registrations[email].code == code
      && now <= t.registrations[email].expiresAt && t.registrations[email].data.password.Some?
      && EmailColumn(t.registrations[email].data.email).Some?
      && EmailColumn(t.registrations[email].data.email).value !in t.users
    ensures out.0.Ok? ==>
      var data := t.registrations[email].data;
      out.0.value == User(data.id, EmailColumn(data.email).value,
                          GenerateScryptHash(data.password.value, salt, kdf), now, None)
      && out.1 == t.(users := t.users[out.0.value.email := out.0.value],
                     registrations := t.registrations - {email})
    ensures (email in t.registrations && t.registrations[email].data.password.Some?
             && out.0.Thrown? && out.1 != t) ==>
      var entry := t.registrations[email];
      out.1 == t.(registrations := t.registrations[email := entry.(data := entry.data.(
                    password := Some(GenerateScryptHash(entry.data.password.value, salt, kdf))))])
      && (out.0.message == EmailTooLong <==> EmailColumn(entry.data.email).None?)
  {
    var found := email in t.registrations;
    var refusal := CodeRefusal(found, if found then t.registrations[email].code else "",
                               if found then t.registrations[email].expiresAt else 0, code, now,
                               NoPendingRegistration);
    if refusal.Some? then (Fail(404, refusal.value), t)
    else
      var entry := t.registrations[email];
      match entry.data.password
      case None => (Thrown(PasswordNotString), t)
      case Some(plain) =>
        var hashed := GenerateScryptHash(plain, salt, kdf);
        var kept := t.(registrations := t.registrations[email := entry.(data := entry.data.(password := Some(hashed)))]);
        match EmailColumn(entry.data.email)
        case None => (Thrown(EmailTooLong), kept)
        case Some(stored) =>
          if stored in t.users then (Thrown(DuplicateUser), kept)
          else
            var user := User(entry.data.id, stored, hashed, now, None);
            (Ok(user), t.(users := t.users[stored := user], registrations := t.registrations - {email}))
  }

  // ---------------------------------------------------------------------------------------
  // Password reset

  /** `verifyEmail`: an email with no user fails with 404; otherwise the reset entry is stored
      or replaced, and stays even when sending fails. */
  function VerifyEmail(t: Tables, email: string, random: real, now: int, sendError: Option<string>)
    : (out: (Result<string>, Tables))
    requires 0.0 <= random < 1.0
    ensures email !in t.users ==> out == (Fail(404, UserMissing(email)), t)
    ensures email in t.users ==>
      out.1 == t.(resets := t.resets[email := Reset(email, GenerateCode(random), now + CodeLifetimeMs)])
    ensures email in t.users ==>
      out.0 == if sendError.Some? then Fail(404, SendFailed(email, sendError.value)) else Ok(email)
  {
    if email !in t.users then (Fail(404, UserMissing(email)), t)
    else
      var t' := t.(resets := t.resets[email := Reset(email, GenerateCode(random), now + CodeLifetimeMs)]);
      if sendError.Some? then (Fail(404, SendFailed(email, sendError.value)), t')
      else (Ok(email), t')
  }

  /** `verifyCodeAndResetPassword`: the same checks against the reset map. Then the new
      password is hashed, which throws for an absent one and changes nothing. On success the
      user with that email (if any is left) gets the hash and an `updatedAt`, and the entry is
      deleted. */
  function VerifyCodeAndResetPassword(t: Tables, email: string, code: string, password: Option<string>,
                                      now: int, salt: string, kdf: Kdf): (out: (Result<()>, Tables))
    requires IsSalt(salt)
    ensures out.1.registrations == t.registrations
    ensures email !in t.resets ==> out == (Fail(404, NoPendingReset), t)
    ensures email in t.resets && t.resets[email].code != code ==> out == (Fail(404, InvalidCode), t)
    ensures (email in t.resets && t.resets[email].code == code
             && now > t.resets[email].expiresAt) ==> out == (Fail(404, ExpiredCode), t)
    ensures (email in t.resets && t.resets[email].code == code && now <= t.resets[email].expiresAt
             && password.None?) ==> out == (Thrown(PasswordNotString), t)
    ensures out.0.Ok? <==>
      email in t.resets && t.resets[email].code == code && now <= t.resets[email].expiresAt
      && password.Some?
    ensures out.0.Ok? ==>
      out.1.resets == t.resets - {email}
      && out.1.users.Keys == t.users.Keys
      && (forall e :: e in t.users && e != email ==> out.1.users[e] == t.users[e])
      && (email in t.users ==>
            out.1.users[email] == t.users[email].(password := GenerateScryptHash(password.value, salt, kdf),
                                                  updatedAt := Some(now)))
  {
    var found := email in t.resets;
    var refusal := CodeRefusal(found, if found then t.resets[email].code else "",
                               if found then t.resets[email].expiresAt else 0, code, now, NoPendingReset);
    if refusal.Some? then (Fail(404, refusal.value), t)
    else if password.None? then (Thrown(PasswordNotString), t)
    else
      var hashed := GenerateScryptHash(password.value, salt, kdf);
      var users := if email in t.users
                   then t.users[email := t.users[email].(password := hashed, updatedAt := Some(now))]
                   else t.users;
      (Ok(()), t.(users := users, resets := t.resets - {email}))
  }

  // ---------------------------------------------------------------------------------------
  // Login

  /** The guards of `login`: both fields must be truthy (400); an unknown email and a wrong
      password give the same 401; a stored hash that cannot be checked throws. Success yields
      the user's id, which the token carries. */
  function Login(users: map<string, User>, email: Option<string>, password: Option<string>, kdf: Kdf)
    : (r: Result<string>)
    ensures !Truthy(email) || !Truthy(password) ==> r == Fail(400, CredentialsRequired)
    ensures Truthy(email) && Truthy(password) && email.value !in users ==> r == Fail(401, InvalidCredentials)
    ensures r.Ok? <==>
      Truthy(email) && Truthy(password) && email.value in users
      && VerifyScryptHash(password.value, users[email.value].password, kdf) == Ok(true)
    ensures r.Ok? ==> r.value == users[email.value].id
    ensures r.Fail? ==> r.status == 400 || r == Fail(401, InvalidCredentials)
  {
    if !Truthy(email) || !Truthy(password) then Fail(400, CredentialsRequired)
    else if email.value !in users then Fail(401, InvalidCredentials)
    else
      match VerifyScryptHash(password.value, users[email.value].password, kdf)
      case Ok(true) => Ok(users[email.value].id)
      case Ok(false) => Fail(401, InvalidCredentials)
      case Fail(s, m) => Fail(s, m)
      case Thrown(m) => Thrown(m)
  }

  // ---------------------------------------------------------------------------------------
  // Properties of the flows

  /** A registration confirmed with the code it issued, within five minutes, creates a user
      who can then log in with the password given at registration. */
  lemma RegisterVerifyLogin(t: Tables, email: string, password: string, userId: string, random: real,
                            now: int, later: int, salt: string, kdf: Kdf)
    requires 0.0 <= random < 1.0 && IsSalt(salt)
    requires email !in t.users && email != "" && password != "" && |email| <= EmailLength
    requires now <= later <= now + CodeLifetimeMs
    ensures var t1 := Register(t, email, Some(password), userId, random, now, None).1;
      var (r2, t2) := VerifyCode(t1, email, GenerateCode(random), later, salt, kdf);
      r2.Ok? && email !in t2.registrations
      && Login(t2.users, Some(email), Some(password), kdf) == Ok(userId)
  {
    var t1 := Register(t, email, Some(password), userId, random, now, None).1;
    var (r2, t2) := VerifyCode(t1, email, GenerateCode(random), later, salt, kdf);
    assert r2.Ok?;
    VerifyOwnHash(password, salt, kdf);
  }

  /** An email longer than the column that does not end in a space never becomes a user: the
      code is accepted, the insert throws, and the entry stays, holding the hash. */
  lemma LongEmailNeverRegisters(t: Tables, email: string, password: string, userId: string,
                                random: real, now: int, later: int, salt: string, kdf: Kdf)
    requires 0.0 <= random < 1.0 && IsSalt(salt)
    requires email !in t.users && |email| > EmailLength && email[|email| - 1] != ' '
    requires now <= later <= now + CodeLifetimeMs
    ensures var t1 := Register(t, email, Some(password), userId, random, now, None).1;
      var (r2, t2) := VerifyCode(t1, email, GenerateCode(random), later, salt, kdf);
      r2 == Thrown(EmailTooLong) && t2.users == t.users
      && t2.registrations[email].data.password == Some(GenerateScryptHash(password, salt, kdf))
  {
  }

  /** A registration without a password never becomes a user: confirming its code throws at the
      hash and leaves the entry as it was. */
  lemma AbsentPasswordNeverRegisters(t: Tables, email: string, userId: string, random: real,
                                     now: int, later: int, salt: string, kdf: Kdf)
    requires 0.0 <= random < 1.0 && IsSalt(salt)
    requires email !in t.users
    requires now <= later <= now + CodeLifetimeMs
    ensures var t1 := Register(t, email, None, userId, random, now, None).1;
      VerifyCode(t1, email, GenerateCode(random), later, salt, kdf) == (Thrown(PasswordNotString), t1)
  {
  }

  /** After a reset, the new password logs in and an old password whose derived key differs
      is refused with the same 401 as an unknown user. */
  lemma ResetThenLogin(t: Tables, email: string, newPassword: string, oldPassword: string,
                       random: real, now: int, later: int, salt: string, kdf: Kdf)
    requires 0.0 <= random < 1.0 && IsSalt(salt)
    requires email in t.users && email != "" && newPassword != "" && oldPassword != ""
    requires now <= later <= now + CodeLifetimeMs
    requires kdf(oldPassword, salt) != kdf(newPassword, salt)
    ensures var t1 := VerifyEmail(t, email, random, now, None).1;
      var (r2, t2) := VerifyCodeAndResetPassword(t1, email, GenerateCode(random), Some(newPassword), later, salt, kdf);
      r2.Ok? && email !in t2.resets
      && Login(t2.users, Some(email), Some(newPassword), kdf) == Ok(t.users[email].id)
      && Login(t2.users, Some(email), Some(oldPassword), kdf) == Fail(401, InvalidCredentials)
  {
    var t1 := VerifyEmail(t, email, random, now, None).1;
    var (r2, t2) := VerifyCodeAndResetPassword(t1, email, GenerateCode(random), Some(newPassword), later, salt, kdf);
    assert r2.Ok?;
    VerifyGenerated(newPassword, newPassword, salt, kdf);
    VerifyGenerated(newPassword, oldPassword, salt, kdf);
  }

  /** The code is compared before the expiry: a wrong code is reported as invalid even when
      the entry has expired, and an expired entry is never consumed. */
  lemma ExpiredEntryStays(t: Tables, email: string, code: string, now: int, salt: string, kdf: Kdf)
    requires IsSalt(salt)
    requires email in t.registrations && now > t.registrations[email].expiresAt
    ensures VerifyCode(t, email, code, now, salt, kdf).1 == t
    ensures VerifyCode(t, email, code, now, salt, kdf).0
         == Fail(404, if code == t.registrations[email].code then ExpiredCode else InvalidCode)
  {
  }

  // ---------------------------------------------------------------------------------------
  // The controller's state

  class AuthController {
    var users: map<string, User>
    var pendingRegistrations: map<string, Registration>
    var pendingResetPassword: map<string, Reset>

    function State(): Tables
      reads this
    {
      Tables(users, pendingRegistrations, pendingResetPassword)
    }

    constructor(users0: map<string, User>)
      ensures State() == Tables(users0, map[], map[])
    {
      users := users0;
      pendingRegistrations := map[];
      pendingResetPassword := map[];
    }

    /** `register`. */
    method HandleRegister(email: string, password: Option<string>, userId: string, random: real, now: int,
                          sendError: Option<string>) returns (r: Result<string>)
      requires 0.0 <= random < 1.0
      modifies this
      ensures (r, State()) == Register(old(State()), email, password, userId, random, now, sendError)
    {
      if email in users {
        return Fail(403, UserExists(email));
      }
      var code := GenerateCode(random);
      var expiresAt := now + CodeLifetimeMs;
      pendingRegistrations := pendingRegistrations[email := Registration(NewUser(userId, email, password), code, expiresAt)];
      if sendError.Some? {
        return Fail(404, SendFailed(email, sendError.value));
      }
      r := Ok(email);
    }

    /** `verifyCode`. */
    method HandleVerifyCode(email: string, code: string, now: int, salt: string, kdf: Kdf)
      returns (r: Result<User>)
      requires IsSalt(salt)
      modifies this
      ensures (r, State()) == VerifyCode(old(State()), email, code, now, salt, kdf)
    {
      if email !in pendingRegistrations {
        return Fail(404, NoPendingRegistration);
      }
      var pending := pendingRegistrations[email];
      if pending.code != code {
        return Fail(404, InvalidCode);
      }
      if now > pending.expiresAt {
        return Fail(404, ExpiredCode);
      }
      if pending.data.password.None? {
        return Thrown(PasswordNotString);
      }
      var hashed := GenerateScryptHash(pending.data.password.value, salt, kdf);
      pending := pending.(data := pending.data.(password := Some(hashed)));
      var stored := EmailColumn(pending.data.email);
      if stored.None? || stored.value in users {
        // The entry object was changed in place before the insert failed.
        pendingRegistrations := pendingRegistrations[email := pending];
        return Thrown(if stored.None? then EmailTooLong else DuplicateUser);
      }
      var user := User(pending.data.id, stored.value, hashed, now, None);
      users := users[stored.value := user];
      pendingRegistrations := pendingRegistrations - {email};
      r := Ok(user);
    }

    /** `verifyEmail`. */
    method HandleVerifyEmail(email: string, random: real, now: int, sendError: Option<string>)
      returns (r: Result<string>)
      requires 0.0 <= random < 1.0
      modifies this
      ensures (r, State()) == VerifyEmail(old(State()), email, random, now, sendError)
    {
      if email !in users {
        return Fail(404, UserMissing(email));
      }
      var code := GenerateCode(random);
      pendingResetPassword := pendingResetPassword[email := Reset(email, code, now + CodeLifetimeMs)];
      if sendError.Some? {
        return Fail(404, SendFailed(email, sendError.value));
      }
      r := Ok(email);
    }

    /** `verifyCodeAndResetPassword`. */
    method HandleVerifyCodeAndResetPassword(email: string, code: string, password: Option<string>, now: int,
                                            salt: string, kdf: Kdf) returns (r: Result<()>)
      requires IsSalt(salt)
      modifies this
      ensures (r, State()) == VerifyCodeAndResetPassword(old(State()), email, code, password, now, salt, kdf)
    {
      if email !in pendingResetPassword {
        return Fail(404, NoPendingReset);
      }
      var pending := pendingResetPassword[email];
      if pending.code != code {
        return Fail(404, InvalidCode);
      }
      if now > pending.expiresAt {
        return Fail(404, ExpiredCode);
      }
      if password.None? {
        return Thrown(PasswordNotString);
      }
      var hashed := GenerateScryptHash(password.value, salt, kdf);
      if email in users {
        users := users[email := users[email].(password := hashed, updatedAt := Some(now))];
      }
      pendingResetPassword := pendingResetPassword - {email};
      r := Ok(());
    }

    /** `login`: reads the users and changes nothing. */
    method HandleLogin(email: Option<string>, password: Option<string>, kdf: Kdf) returns (r: Result<string>)
      ensures r == Login(users, email, password, kdf)
    {
      r := Login(users, email, password, kdf);
    }
  }
}
