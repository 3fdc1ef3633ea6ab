/** The account transitions of src/users/auth.service.ts: registration,
    log-in, the reset-password link and the reset itself.

    The service works on the users table (`UserEntity.UserRepository`) and
    sends mail. bcrypt hashing and comparison, JWT signing and the random
    tokens of `randomBytes(32).toString('hex')` are not interpreted: the
    first three are the functions of `Crypto`, a fresh token is a parameter
    of the operation that draws one. A sent mail is recorded in the
    service's outbox; the templates of the mail service are not part of
    this model.

    Each operation is a method of `AuthService` and is specified by a step
    function over the table, which gives the reply, the new table and the
    mails sent. */
module AuthService {
  import opened Wrappers
  import opened Constants
  import opened JsStrings
  import opened UserEntity

  datatype Mail = VerifyMail(to: string, link: string) | ResetMail(to: string, link: string)

  /** The `DOMAIN` and `CLIENT_DOMAIN` configuration values. */
  datatype Config = Config(domain: string, clientDomain: string)

  /** bcrypt `hash`, bcrypt `compare(plain, hash)` and JWT `signAsync`. */
  datatype Crypto = Crypto(hash: string -> string, matches: (string, string) -> bool, sign: JwtPayload -> string)

  /** A successful reply: `{ message }` or `{ accessToken }`. */
  datatype Reply = Message(text: string) | AccessToken(token: string)

  /** The outcome of an operation: its reply, the table after it, the mails it sent. */
  datatype Step = Step(result: Result<Reply>, rows: seq<Account>, mails: seq<Mail>)

  const VerifyMessage: string := "Verification token has been sent to your email, please verify your email address"
  const UserExists: string := "user already exist"
  const InvalidCredentials: string := "invalid email or password"
  const UnknownEmail: string := "user with given email does not exist"
  const ResetSent: string := "Password reset link sent to your email, please check your inbox"
  const InvalidLink: string := "invalid link"
  const ValidLink: string := "valid link"
  const ResetDone: string := "password reset successfully, please log in"

  predicate Registered(rows: seq<Account>, email: string) {
    exists i :: 0 <= i < |rows| && rows[i].email == email
  }

  // ---------------------------------------------------------------------
  // Links

  /** `generateLink`: the e-mail verification link of a user. */
  function VerificationLink(domain: string, id: nat, token: string): (link: string)
    ensures StartsWith(link, domain + "/api/users/verify-email/" + NatToString(id) + "/")
    ensures EndsWith(link, "/" + token)
    ensures |link| == |domain + "/api/users/verify-email/" + NatToString(id) + "/"| + |token|
  {
    var head := domain + "/api/users/verify-email/" + NatToString(id) + "/";
    var link := head + token;
    assert link[..|head|] == head;
    assert link[|link| - |"/" + token|..] == "/" + token;
    link
  }

  /** The reset-password link of `sendResetPasswordLink`. */
  function ResetLink(clientDomain: string, id: nat, token: string): (link: string)
    ensures StartsWith(link, clientDomain + "/reset-password/" + NatToString(id) + "/")
    ensures EndsWith(link, "/" + token)
    ensures |link| == |clientDomain + "/reset-password/" + NatToString(id) + "/"| + |token|
  {
    var head := clientDomain + "/reset-password/" + NatToString(id) + "/";
    var link := head + token;
    assert link[..|head|] == head;
    assert link[|link| - |"/" + token|..] == "/" + token;
    link
  }

  /** In a link tail, the first '/' is the one right after the id's digits. */
  lemma SlashAfterDigits(n: nat, t: string)
    ensures var a := NatToString(n);
      && (a + "/" + t)[|a|] == '/'
      && forall i :: 0 <= i < |a| ==> (a + "/" + t)[i] != '/'
  {
    var a := NatToString(n);
    assert forall i :: 0 <= i < |a| ==> (a + "/" + t)[i] == a[i];
  }

  /** The id and the token can be read back from the tail of a link: the id's
      digits end at the first '/'. */
  lemma {:induction false} IdTokenInjective(m: nat, t: string, n: nat, u: string)
    requires NatToString(m) + "/" + t == NatToString(n) + "/" + u
    ensures m == n && t == u
  {
    var a, b := NatToString(m), NatToString(n);
    var x := a + "/" + t;
    SlashAfterDigits(m, t);
    SlashAfterDigits(n, u);
    assert |a| == |b|;
    assert a == x[..|a|] == b;
    NatToStringInjective(m, n);
    assert t == x[|a| + 1..] == u;
  }

  /** A link is a fixed prefix followed by the `id/token` tail. */
  lemma LinkTails(domain: string, clientDomain: string, id: nat, token: string)
    ensures VerificationLink(domain, id, token) == (domain + "/api/users/verify-email/") + (NatToString(id) + "/" + token)
    ensures ResetLink(clientDomain, id, token) == (clientDomain + "/reset-password/") + (NatToString(id) + "/" + token)
  {
  }

  /** Two texts with the same prefix agree after it. */
  lemma PrefixCancel(p: string, x: string, y: string)
    requires p + x == p + y
    ensures x == y
  {
    assert x == (p + x)[|p|..];
    assert y == (p + y)[|p|..];
  }

  /** Distinct users or tokens get distinct verification links. */
  lemma VerificationLinkInjective(domain: string, m: nat, t: string, n: nat, u: string)
    requires VerificationLink(domain, m, t) == VerificationLink(domain, n, u)
    ensures m == n && t == u
  {
    LinkTails(domain, [], m, t);
    LinkTails(domain, [], n, u);
    PrefixCancel(domain + "/api/users/verify-email/", NatToString(m) + "/" + t, NatToString(n) + "/" + u);
    IdTokenInjective(m, t, n, u);
  }

  /** Distinct users or tokens get distinct reset links. */
  lemma ResetLinkInjective(clientDomain: string, m: nat, t: string, n: nat, u: string)
    requires ResetLink(clientDomain, m, t) == ResetLink(clientDomain, n, u)
    ensures m == n && t == u
  {
    LinkTails([], clientDomain, m, t);
    LinkTails([], clientDomain, n, u);
    PrefixCancel(clientDomain + "/reset-password/", NatToString(m) + "/" + t, NatToString(n) + "/" + u);
    IdTokenInjective(m, t, n, u);
  }

  // ---------------------------------------------------------------------
  // Step functions

  /** `register`: a taken e-mail is refused; otherwise a new inactive
      EMPLOYEE account is stored with the hashed password and the fresh
      verification token, and the verification link is mailed. */
  function RegisterStep(rows: seq<Account>, email: string, password: string, firstName: string, lastName: string,
                        token: string, config: Config, crypto: Crypto): (s: Step)
    ensures Registered(rows, email) ==> s == Step(Err(BadRequest(UserExists)), rows, [])
    ensures !Registered(rows, email) ==>
      && s.result == Ok(Message(VerifyMessage))
      && |s.rows| == |rows| + 1 && s.rows[..|rows|] == rows
      && s.rows[|rows|] == Account(firstName, lastName, email, crypto.hash(password), EMPLOYEE, false, Some(token), None)
      && s.mails == [VerifyMail(email, VerificationLink(config.domain, |rows| + 1, token))]
  {
    if IndexOfEmail(rows, email).Some? then Step(Err(BadRequest(UserExists)), rows, [])
    else
      var account := Account(firstName, lastName, email, crypto.hash(password), EMPLOYEE, false, Some(token), None);
      Step(Ok(Message(VerifyMessage)), rows + [account],
           [VerifyMail(email, VerificationLink(config.domain, |rows| + 1, token))])
  }

  /** `login`. An unknown e-mail and a wrong password give the same error.
      An inactive account gets the verification mail again, with a new
      token only when it has none (null or ''); an active one gets an access
      token signed over its id and role. */
  function LoginStep(rows: seq<Account>, email: string, password: string, token: string,
                     config: Config, crypto: Crypto): (s: Step)
    ensures s.result.Err? ==> s == Step(Err(BadRequest(InvalidCredentials)), rows, [])
    ensures s.result.Ok? && s.result.value.AccessToken? ==> s.rows == rows && s.mails == []
    ensures s.result.Ok? && s.result.value.Message? ==>
      s.result.value.text == VerifyMessage && |s.rows| == |rows| && |s.mails| == 1 && s.mails[0].VerifyMail?
  {
    var found := IndexOfEmail(rows, email);
    if found.None? then Step(Err(BadRequest(InvalidCredentials)), rows, [])
    else
      var k := found.value;
      var user := rows[k];
      if !crypto.matches(password, user.password) then Step(Err(BadRequest(InvalidCredentials)), rows, [])
      else if !user.isActive then
        if user.verificationToken.None? || user.verificationToken.value == [] then
          Step(Ok(Message(VerifyMessage)), rows[k := user.(verificationToken := Some(token))],
               [VerifyMail(email, VerificationLink(config.domain, k + 1, token))])
        else
          Step(Ok(Message(VerifyMessage)), rows,
               [VerifyMail(email, VerificationLink(config.domain, k + 1, user.verificationToken.value))])
      else Step(Ok(AccessToken(crypto.sign(JwtPayload(k + 1, user.role)))), rows, [])
  }

  /** `sendResetPasswordLink`: an unknown e-mail is refused; otherwise the
      account's reset token is replaced by the fresh one, which is mailed. */
  function SendResetStep(rows: seq<Account>, email: string, token: string, config: Config): (s: Step)
    ensures s.result.Err? <==> !Registered(rows, email)
    ensures s.result.Err? ==> s == Step(Err(BadRequest(UnknownEmail)), rows, [])
    ensures s.result.Ok? ==> exists k :: (
      && 0 <= k < |rows| && rows[k].email == email
      && s.result == Ok(Message(ResetSent))
      && s.rows == rows[k := rows[k].(resetPasswordToken := Some(token))]
      && s.mails == [ResetMail(email, ResetLink(config.clientDomain, k + 1, token))])
  {
    var found := IndexOfEmail(rows, email);
    if found.None? then Step(Err(BadRequest(UnknownEmail)), rows, [])
    else
      var k := found.value;
      Step(Ok(Message(ResetSent)), rows[k := rows[k].(resetPasswordToken := Some(token))],
           [ResetMail(email, ResetLink(config.clientDomain, k + 1, token))])
  }

  /** `getResetPasswordLink`: the link is valid exactly when the user exists
      and its stored reset token is not null and equals the one supplied. */
  function CheckResetLink(rows: seq<Account>, userId: int, token: string): (r: Result<Reply>)
    ensures r.Ok? <==> 1 <= userId <= |rows| && rows[userId - 1].resetPasswordToken == Some(token)
    ensures r.Ok? ==> r.value == Message(ValidLink)
    ensures r.Err? ==> r.error == BadRequest(InvalidLink)
  {
    var user := FindById(rows, userId);
    if user.None? then Err(BadRequest(InvalidLink))
    else if user.value.resetPasswordToken.None? || user.value.resetPasswordToken.value != token then
      Err(BadRequest(InvalidLink))
    else Ok(Message(ValidLink))
  }

  /** `resetPassword`: after the same check as the link, the new password's
      hash is stored and the reset token becomes '' (not null). */
  function ResetStep(rows: seq<Account>, userId: int, token: string, newPassword: string, crypto: Crypto): (s: Step)
    ensures s.result.Err? <==> CheckResetLink(rows, userId, token).Err?
    ensures s.result.Err? ==> s == Step(Err(BadRequest(InvalidLink)), rows, [])
    ensures s.result.Ok? ==>
      && s.result == Ok(Message(ResetDone)) && s.mails == []
      && s.rows == rows[userId - 1 := rows[userId - 1].(password := crypto.hash(newPassword), resetPasswordToken := Some([]))]
  {
    if CheckResetLink(rows, userId, token).Err? then Step(Err(BadRequest(InvalidLink)), rows, [])
    else
      var user := rows[userId - 1];
      Step(Ok(Message(ResetDone)), rows[userId - 1 := user.(password := crypto.hash(newPassword), resetPasswordToken := Some([]))], [])
  }

  // ---------------------------------------------------------------------
  // Properties

  /** No operation can make two accounts share an e-mail. */
  lemma StepsKeepEmailsUnique(rows: seq<Account>, email: string, password: string, firstName: string, lastName: string,
                              userId: int, token: string, config: Config, crypto: Crypto)
    requires UniqueEmails(rows)
    ensures UniqueEmails(RegisterStep(rows, email, password, firstName, lastName, token, config, crypto).rows)
    ensures UniqueEmails(LoginStep(rows, email, password, token, config, crypto).rows)
    ensures UniqueEmails(SendResetStep(rows, email, token, config).rows)
    ensures UniqueEmails(ResetStep(rows, userId, token, password, crypto).rows)
  {
    var r := RegisterStep(rows, email, password, firstName, lastName, token, config, crypto).rows;
    if !Registered(rows, email) {
      forall i, j | 0 <= i < j < |r| ensures r[i].email != r[j].email {
        if j == |rows| {
          assert r[i] == rows[i];
        } else {
          assert r[i] == rows[i] && r[j] == rows[j];
        }
      }
    }
  }

  /** Log-in succeeds exactly for a stored e-mail with a matching password. */
  lemma LoginSucceedsIff(rows: seq<Account>, email: string, password: string, token: string, config: Config, crypto: Crypto)
    requires UniqueEmails(rows)
    ensures LoginStep(rows, email, password, token, config, crypto).result.Ok? <==>
      exists k :: 0 <= k < |rows| && rows[k].email == email && crypto.matches(password, rows[k].password)
  {
    if exists k :: 0 <= k < |rows| && rows[k].email == email && crypto.matches(password, rows[k].password) {
      var k :| 0 <= k < |rows| && rows[k].email == email && crypto.matches(password, rows[k].password);
      IndexOfUniqueEmail(rows, k);
    }
  }

  /** An inactive account never receives an access token: it is mailed the
      verification link with its stored token, or with a fresh one that is
      stored when it had none; no other field and no other account changes. */
  lemma LoginInactive(rows: seq<Account>, k: nat, password: string, token: string, config: Config, crypto: Crypto)
    requires UniqueEmails(rows) && k < |rows| && !rows[k].isActive
    requires crypto.matches(password, rows[k].password)
    ensures var s := LoginStep(rows, rows[k].email, password, token, config, crypto);
      var stored := rows[k].verificationToken;
      var missing := stored.None? || stored.value == [];
      var sent := if missing then token else stored.value;
      && s.result == Ok(Message(VerifyMessage))
      && s.rows == (if missing then rows[k := rows[k].(verificationToken := Some(token))] else rows)
      && s.mails == [VerifyMail(rows[k].email, VerificationLink(config.domain, k + 1, sent))]
  {
    IndexOfUniqueEmail(rows, k);
  }

  /** An active account with the right password gets a token signed over
      `{ sub: id, role }`, and nothing is stored or sent. */
  lemma LoginActive(rows: seq<Account>, k: nat, password: string, token: string, config: Config, crypto: Crypto)
    requires UniqueEmails(rows) && k < |rows| && rows[k].isActive
    requires crypto.matches(password, rows[k].password)
    ensures LoginStep(rows, rows[k].email, password, token, config, crypto)
      == Step(Ok(AccessToken(crypto.sign(JwtPayload(k + 1, rows[k].role)))), rows, [])
  {
    IndexOfUniqueEmail(rows, k);
  }

  /** A freshly registered account cannot obtain an access token until it is verified. */
  lemma RegisteredCannotLogIn(rows: seq<Account>, email: string, password: string, firstName: string, lastName: string,
                              token: string, token2: string, config: Config, crypto: Crypto)
    requires UniqueEmails(rows) && !Registered(rows, email)
    ensures var after := RegisterStep(rows, email, password, firstName, lastName, token, config, crypto).rows;
      var s := LoginStep(after, email, password, token2, config, crypto);
      !(s.result.Ok? && s.result.value.AccessToken?)
  {
    var after := RegisterStep(rows, email, password, firstName, lastName, token, config, crypto).rows;
    StepsKeepEmailsUnique(rows, email, password, firstName, lastName, 0, token, config, crypto);
    var n := |rows|;
    assert after[n].email == email && !after[n].isActive;
    IndexOfUniqueEmail(after, n);
  }

  /** The link mailed by `sendResetPasswordLink` passes the link check. */
  lemma SentResetLinkValid(rows: seq<Account>, email: string, token: string, config: Config)
    requires Registered(rows, email)
    ensures var s := SendResetStep(rows, email, token, config);
      var k := IndexOfEmail(rows, email).value;
      && k < |rows| && rows[k].email == email
      && s.mails == [ResetMail(email, ResetLink(config.clientDomain, k + 1, token))]
      && CheckResetLink(s.rows, k + 1, token) == Ok(Message(ValidLink))
  {
    var s := SendResetStep(rows, email, token, config);
    var k := IndexOfEmail(rows, email).value;
    assert s.rows[k].resetPasswordToken == Some(token);
  }

  /** A successful reset consumes its token: the same non-empty token is
      refused afterwards, by the link check and by a second reset. */
  lemma ResetConsumesToken(rows: seq<Account>, userId: int, token: string, newPassword: string, other: string, crypto: Crypto)
    requires ResetStep(rows, userId, token, newPassword, crypto).result.Ok? && token != []
    ensures var after := ResetStep(rows, userId, token, newPassword, crypto).rows;
      && CheckResetLink(after, userId, token) == Err(BadRequest(InvalidLink))
      && ResetStep(after, userId, token, other, crypto).result == Err(BadRequest(InvalidLink))
  {
    var after := ResetStep(rows, userId, token, newPassword, crypto).rows;
    assert after[userId - 1].resetPasswordToken == Some([]);
  }

  /** Because the reset token is cleared to '' rather than null, the empty
      token passes the check after a reset. */
  lemma EmptyTokenAcceptedAfterReset(rows: seq<Account>, userId: int, token: string, newPassword: string, crypto: Crypto)
    requires ResetStep(rows, userId, token, newPassword, crypto).result.Ok?
    ensures CheckResetLink(ResetStep(rows, userId, token, newPassword, crypto).rows, userId, []) == Ok(Message(ValidLink))
  {
    var after := ResetStep(rows, userId, token, newPassword, crypto).rows;
    assert after[userId - 1].resetPasswordToken == Some([]);
  }

  // ---------------------------------------------------------------------
  // The service

  class AuthService {
    const users: UserRepository
    const config: Config
    const crypto: Crypto
    /** The mails sent so far, oldest first. */
    var outbox: seq<Mail>

    constructor(users: UserRepository, config: Config, crypto: Crypto)
      ensures this.users == users && this.config == config && this.crypto == crypto && outbox == []
    {
      this.users := users;
      this.config := config;
      this.crypto := crypto;
      outbox := [];
    }

    /** `register`; `token` is the fresh verification token. */
    method Register(email: string, password: string, firstName: string, lastName: string, token: string)
      returns (r: Result<Reply>)
      requires users.Valid()
      modifies users, this
      ensures var s := RegisterStep(old(users.rows), email, password, firstName, lastName, token, config, crypto);
        r == s.result && users.rows == s.rows && outbox == old(outbox) + s.mails
      ensures users.Valid()
    {
      StepsKeepEmailsUnique(users.rows, email, password, firstName, lastName, 0, token, config, crypto);
      var existing := IndexOfEmail(users.rows, email);
      if existing.Some? {
        return Err(BadRequest(UserExists));
      }
      var hashed := crypto.hash(password);
      var account := Account(firstName, lastName, email, hashed, EMPLOYEE, false, Some(token), None);
      users.rows := users.rows + [account];
      var link := VerificationLink(config.domain, |users.rows|, token);
      outbox := outbox + [VerifyMail(email, link)];
      r := Ok(Message(VerifyMessage));
    }

    /** `login`; `token` is the verification token drawn if one is needed. */
    method Login(email: string, password: string, token: string) returns (r: Result<Reply>)
      requires users.Valid()
      modifies users, this
      ensures var s := LoginStep(old(users.rows), email, password, token, config, crypto);
        r == s.result && users.rows == s.rows && outbox == old(outbox) + s.mails
      ensures users.Valid()
    {
      StepsKeepEmailsUnique(users.rows, email, password, [], [], 0, token, config, crypto);
      var found := IndexOfEmail(users.rows, email);
      if found.None? {
        return Err(BadRequest(InvalidCredentials));
      }
      var k := found.value;
      var user := users.rows[k];
      if !crypto.matches(password, user.password) {
        return Err(BadRequest(InvalidCredentials));
      }
      if !user.isActive {
        var verificationToken := user.verificationToken;
        if verificationToken.None? || verificationToken.value == [] {
          user := user.(verificationToken := Some(token));
          users.rows := users.rows[k := user];
          verificationToken := user.verificationToken;
        }
        var link := VerificationLink(config.domain, k + 1, verificationToken.value);
        outbox := outbox + [VerifyMail(email, link)];
        return Ok(Message(VerifyMessage));
      }
      r := Ok(AccessToken(crypto.sign(JwtPayload(k + 1, user.role))));
    }

    /** `sendResetPasswordLink`; `token` is the fresh reset token. */
    method SendResetPasswordLink(email: string, token: string) returns (r: Result<Reply>)
      requires users.Valid()
      modifies users, this
      ensures var s := SendResetStep(old(users.rows), email, token, config);
        r == s.result && users.rows == s.rows && outbox == old(outbox) + s.mails
      ensures users.Valid()
    {
      StepsKeepEmailsUnique(users.rows, email, [], [], [], 0, token, config, crypto);
      var found := IndexOfEmail(users.rows, email);
      if found.None? {
        return Err(BadRequest(UnknownEmail));
      }
      var k := found.value;
      var user := users.rows[k];
      user := user.(resetPasswordToken := Some(token));
      users.rows := users.rows[k := user];
      var link := ResetLink(config.clientDomain, k + 1, token);
      outbox := outbox + [ResetMail(email, link)];
      r := Ok(Message(ResetSent));
    }

    /** `getResetPasswordLink`: a check that changes nothing. */
    method GetResetPasswordLink(userId: int, token: string) returns (r: Result<Reply>)
      ensures r == CheckResetLink(users.rows, userId, token)
    {
      var user := FindById(users.rows, userId);
      if user.None? {
        return Err(BadRequest(InvalidLink));
      }
      if user.value.resetPasswordToken.None? || user.value.resetPasswordToken.value != token {
        return Err(BadRequest(InvalidLink));
      }
      r := Ok(Message(ValidLink));
    }

    /** `resetPassword`. */
    method ResetPassword(userId: int, token: string, newPassword: string) returns (r: Result<Reply>)
      requires users.Valid()
      modifies users
      ensures var s := ResetStep(old(users.rows), userId, token, newPassword, crypto);
        r == s.result && users.rows == s.rows
      ensures users.Valid()
    {
      StepsKeepEmailsUnique(users.rows, [], newPassword, [], [], userId, token, config, crypto);
      var user := FindById(users.rows, userId);
      if user.None? {
        return Err(BadRequest(InvalidLink));
      }
      if user.value.resetPasswordToken.None? || user.value.resetPasswordToken.value != token {
        return Err(BadRequest(InvalidLink));
      }
      var updated := user.value.(password := crypto.hash(newPassword), resetPasswordToken := Some([]));
      users.rows := users.rows[userId - 1 := updated];
      r := Ok(Message(ResetDone));
    }
  }
}
