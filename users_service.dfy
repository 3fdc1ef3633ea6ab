/** src/users/users.service.ts: user lookup, e-mail verification, and the
    account operations it hands to `AuthService` unchanged. */
module UsersService {
  import opened Wrappers
  import opened Constants
  import opened JsStrings
  import opened UserEntity
  import Auth = AuthService

  const UserNotFound: string := "User not found"
  const NoVerificationToken: string := "There is no verification token"
  const InvalidVerifyLink: string := "Invalid link"
  const EmailVerified: string := "Your email has been verified, please log in to your account"

  const UnknownUserHead: string := "Utilisateur avec l'ID "
  const UnknownUserTail: string := " non trouvé."

  /** The message of `getUserById` for an unknown id. */
  function UnknownUserMessage(id: int): (m: string)
    ensures StartsWith(m, UnknownUserHead) && EndsWith(m, UnknownUserTail)
  {
    var m := UnknownUserHead + IntToString(id) + UnknownUserTail;
    assert m[..|UnknownUserHead|] == UnknownUserHead;
    assert m[|m| - |UnknownUserTail|..] == UnknownUserTail;
    m
  }

  /** The message names the id: different ids give different messages. */
  lemma UnknownUserMessageInjective(m: int, n: int)
    requires UnknownUserMessage(m) == UnknownUserMessage(n)
    ensures m == n
  {
    FramedInjective(UnknownUserHead, IntToString(m), IntToString(n), UnknownUserTail);
    IntToStringInjective(m, n);
  }

  /** What `verifyEmail` decides for the stored account (if any) and the
      token of the link: the account to save, or the exception. The token is
      accepted only when it equals the stored one, which must not be null. */
  function VerifyDecision(user: Option<Account>, token: string): (r: Result<Account>)
    ensures r.Ok? <==> user.Some? && user.value.verificationToken == Some(token)
    ensures user.None? ==> r == Err(NotFound(UserNotFound))
    ensures user.Some? && user.value.verificationToken.None? ==> r == Err(NotFound(NoVerificationToken))
    ensures user.Some? && user.value.verificationToken.Some? && user.value.verificationToken.value != token ==>
      r == Err(BadRequest(InvalidVerifyLink))
    ensures r.Ok? ==> r.value.isActive && r.value.verificationToken.None?
  {
    if user.None? then Err(NotFound(UserNotFound))
    else if user.value.verificationToken.None? then Err(NotFound(NoVerificationToken))
    else if user.value.verificationToken.value != token then Err(BadRequest(InvalidVerifyLink))
    else Ok(user.value.(isActive := true, verificationToken := None))
  }

  /** A verification changes `isActive` and `verificationToken` and no other column. */
  lemma VerifyChangesOnlyActivation(user: Account, token: string)
    requires VerifyDecision(Some(user), token).Ok?
    ensures var v := VerifyDecision(Some(user), token).value;
      && v.firstName == user.firstName && v.lastName == user.lastName
      && v.email == user.email && v.password == user.password && v.role == user.role
      && v.resetPasswordToken == user.resetPasswordToken
  {
  }

  /** The same link used twice: the second use finds no token. */
  lemma VerifyTwice(user: Account, token: string)
    requires VerifyDecision(Some(user), token).Ok?
    ensures VerifyDecision(Some(VerifyDecision(Some(user), token).value), token) == Err(NotFound(NoVerificationToken))
  {
  }

  /** Register, follow the mailed link, log in: the new account gets an
      access token for its id with the EMPLOYEE role. It needs only that
      the password matches its own hash. */
  lemma RegisterVerifyLogin(rows: seq<Account>, email: string, password: string, firstName: string, lastName: string,
                            token: string, token2: string, config: Auth.Config, crypto: Auth.Crypto)
    requires UniqueEmails(rows) && !Auth.Registered(rows, email)
    requires crypto.matches(password, crypto.hash(password))
    ensures var s := Auth.RegisterStep(rows, email, password, firstName, lastName, token, config, crypto);
      var id := |rows| + 1;
      && s.mails == [Auth.VerifyMail(email, Auth.VerificationLink(config.domain, id, token))]
      && VerifyDecision(FindById(s.rows, id), token).Ok?
      && var verified := s.rows[id - 1 := VerifyDecision(FindById(s.rows, id), token).value];
      Auth.LoginStep(verified, email, password, token2, config, crypto).result
        == Ok(Auth.AccessToken(crypto.sign(JwtPayload(id, EMPLOYEE))))
  {
    var s := Auth.RegisterStep(rows, email, password, firstName, lastName, token, config, crypto);
    var n := |rows|;
    Auth.StepsKeepEmailsUnique(rows, email, password, firstName, lastName, 0, token, config, crypto);
    var verified := s.rows[n := VerifyDecision(FindById(s.rows, n + 1), token).value];
    assert verified[n].email == email && verified[n].isActive && verified[n].role == EMPLOYEE;
    SameEmailUpdateKeepsUnique(s.rows, n, VerifyDecision(FindById(s.rows, n + 1), token).value);
    Auth.LoginActive(verified, n, password, token2, config, crypto);
  }

  class UsersService {
    const users: UserRepository
    const auth: Auth.AuthService

    /** Both services work on the same users table. */
    predicate Valid() {
      auth.users == users
    }

    constructor(users: UserRepository, auth: Auth.AuthService)
      requires auth.users == users
      ensures Valid() && this.users == users && this.auth == auth
    {
      this.users := users;
      this.auth := auth;
    }

    /** `getCurrentUser`: the account with that id, or none. */
    method GetCurrentUser(id: int) returns (user: Option<Account>)
      ensures user.Some? <==> 1 <= id <= |users.rows|
      ensures user.Some? ==> user.value == users.rows[id - 1]
    {
      user := FindById(users.rows, id);
    }

    /** `getUserById`: the account, or NotFound naming the id. */
    method GetUserById(id: int) returns (r: Result<Account>)
      ensures r.Ok? <==> 1 <= id <= |users.rows|
      ensures r.Ok? ==> r.value == users.rows[id - 1]
      ensures r.Err? ==> r.error == NotFound(UnknownUserMessage(id))
    {
      var user := FindById(users.rows, id);
      if user.None? {
        return Err(NotFound(UnknownUserMessage(id)));
      }
      r := Ok(user.value);
    }

    /** `verifyEmail`: activates the account of the link when its token matches. */
    method VerifyEmail(userId: int, token: string) returns (r: Result<Auth.Reply>)
      requires users.Valid()
      modifies users
      ensures var d := VerifyDecision(FindById(old(users.rows), userId), token);
        && (d.Err? ==> r == Err(d.error) && users.rows == old(users.rows))
        && (d.Ok? ==> r == Ok(Auth.Message(EmailVerified)) && users.rows == old(users.rows)[userId - 1 := d.value])
      ensures users.Valid()
    {
      var user := GetCurrentUser(userId);
      if user.None? {
        return Err(NotFound(UserNotFound));
      }
      var account := user.value;
      if account.verificationToken.None? {
        return Err(NotFound(NoVerificationToken));
      }
      if account.verificationToken.value != token {
        return Err(BadRequest(InvalidVerifyLink));
      }
      account := account.(isActive := true);
      account := account.(verificationToken := None);
      SameEmailUpdateKeepsUnique(users.rows, userId - 1, account);
      users.rows := users.rows[userId - 1 := account];
      r := Ok(Auth.Message(EmailVerified));
    }

    /** `register`, handed to the authentication service. */
    method Register(email: string, password: string, firstName: string, lastName: string, token: string)
      returns (r: Result<Auth.Reply>)
      requires Valid() && users.Valid()
      modifies users, auth
      ensures var s := Auth.RegisterStep(old(users.rows), email, password, firstName, lastName, token, auth.config, auth.crypto);
        r == s.result && users.rows == s.rows && auth.outbox == old(auth.outbox) + s.mails
      ensures users.Valid()
    {
      r := auth.Register(email, password, firstName, lastName, token);
    }

    /** `login`, handed to the authentication service. */
    method Login(email: string, password: string, token: string) returns (r: Result<Auth.Reply>)
      requires Valid() && users.Valid()
      modifies users, auth
      ensures var s := Auth.LoginStep(old(users.rows), email, password, token, auth.config, auth.crypto);
        r == s.result && users.rows == s.rows && auth.outbox == old(auth.outbox) + s.mails
      ensures users.Valid()
    {
      r := auth.Login(email, password, token);
    }

    /** `sendResetPassword`, handed to the authentication service. */
    method SendResetPassword(email: string, token: string) returns (r: Result<Auth.Reply>)
      requires Valid() && users.Valid()
      modifies users, auth
      ensures var s := Auth.SendResetStep(old(users.rows), email, token, auth.config);
        r == s.result && users.rows == s.rows && auth.outbox == old(auth.outbox) + s.mails
      ensures users.Valid()
    {
      r := auth.SendResetPasswordLink(email, token);
    }

    /** `getResetPassword`, handed to the authentication service. */
    method GetResetPassword(userId: int, token: string) returns (r: Result<Auth.Reply>)
      requires Valid()
      ensures r == Auth.CheckResetLink(users.rows, userId, token)
    {
      r := auth.GetResetPasswordLink(userId, token);
    }

    /** `resetPassword`, handed to the authentication service. */
    method ResetPassword(userId: int, token: string, newPassword: string) returns (r: Result<Auth.Reply>)
      requires Valid() && users.Valid()
      modifies users
      ensures var s := Auth.ResetStep(old(users.rows), userId, token, newPassword, auth.crypto);
        r == s.result && users.rows == s.rows
      ensures users.Valid()
    {
      r := auth.ResetPassword(userId, token, newPassword);
    }
  }
}
