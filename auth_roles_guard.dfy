/** src/users/guards/auth-roles.guard.ts: authentication, then the role
    check against the roles the route declares with `@Roles(...)`.

    Authentication parses the header as `AuthGuard` does, verifies the
    token and looks its `sub` up in the users table; any failure after the
    header parse is reported as the same Unauthorized error. The role
    checked is the one stored for the account, not the one in the token.
    The declared roles are a parameter (the reflector metadata): `None`
    when the route declares none. */
module AuthRolesGuard {
  import opened Wrappers
  import opened Constants
  import opened JsStrings
  import opened UserEntity
  import opened AuthGuard
  import Users = UsersService

  /** Who the request authenticates as: the token's payload and the stored account. */
  datatype Principal = Principal(payload: JwtPayload, account: Account)

  /** Step 1 of `canActivate`: a well-formed header, a verified token and an
      existing user; the inner 'User not found' is replaced by the
      invalid-token error. */
  function Identify(header: Option<string>, verify: Verifier, rows: seq<Account>): (r: Result<Principal>)
    ensures r.Ok? <==> Authenticate(header, verify).Ok? && 1 <= Authenticate(header, verify).value.sub <= |rows|
    ensures r.Ok? ==>
      && r.value.payload == Authenticate(header, verify).value
      && 1 <= r.value.payload.sub <= |rows| && r.value.account == rows[r.value.payload.sub - 1]
    ensures r.Err? ==> r.error == Unauthorized(Malformed) || r.error == Unauthorized(InvalidToken)
    ensures BearerToken(header).None? ==> r == Err(Unauthorized(Malformed))
    ensures BearerToken(header).Some? && r.Err? ==> r.error == Unauthorized(InvalidToken)
  {
    match Authenticate(header, verify)
    case Err(e) => Err(e)
    case Ok(payload) =>
      match FindById(rows, payload.sub)
      case None => Err(Unauthorized(InvalidToken))
      case Some(account) => Ok(Principal(payload, account))
  }

  function RoleNames(roles: seq<UserRole>): (names: seq<string>)
    ensures |names| == |roles|
    ensures forall i :: 0 <= i < |roles| ==> names[i] == RoleName(roles[i])
  {
    if roles == [] then [] else [RoleName(roles[0])] + RoleNames(roles[1..])
  }

  /** The 403 text: it names the account's role first, then ends with the
      required roles joined by ", " and a full stop. */
  function ForbiddenMessage(role: UserRole, required: seq<UserRole>): (m: string)
    ensures StartsWith(m, "Rôle non autorisé. Votre rôle ('" + RoleName(role))
    ensures EndsWith(m, Join(RoleNames(required), ", ") + ".")
  {
    var head := "Rôle non autorisé. Votre rôle ('" + RoleName(role);
    var middle := "') n'est pas autorisé pour cette ressource. Rôles requis: ";
    var tail := Join(RoleNames(required), ", ") + ".";
    var m := head + middle + tail;
    assert m[..|head|] == head;
    assert m[|m| - |tail|..] == tail;
    m
  }

  /** Step 2: no declared roles, or a declared role equal to the account's, grants access. */
  function Authorize(role: UserRole, required: Option<seq<UserRole>>): (r: Result<bool>)
    ensures r.Ok? <==> required.None? || required.value == [] || role in required.value
    ensures r.Ok? ==> r.value
    ensures r.Err? ==> r.error == Forbidden(ForbiddenMessage(role, required.value))
  {
    if required.None? || |required.value| == 0 then Ok(true)
    else if role in required.value then Ok(true)
    else Err(Forbidden(ForbiddenMessage(role, required.value)))
  }

  /** The whole decision of `canActivate`. */
  function Decide(header: Option<string>, verify: Verifier, rows: seq<Account>, required: Option<seq<UserRole>>): (r: Result<bool>)
    ensures r.Ok? <==> Identify(header, verify, rows).Ok? && Authorize(Identify(header, verify, rows).value.account.role, required).Ok?
    ensures r.Ok? ==> r.value
    ensures Identify(header, verify, rows).Err? ==> r == Err(Identify(header, verify, rows).error)
  {
    match Identify(header, verify, rows)
    case Err(e) => Err(e)
    case Ok(who) => Authorize(who.account.role, required)
  }

  /** Authentication comes first: whatever the declared roles, a request this
      guard lets through is one `AuthGuard` lets through with the same payload. */
  lemma StricterThanAuthGuard(header: Option<string>, verify: Verifier, rows: seq<Account>, required: Option<seq<UserRole>>)
    ensures Decide(header, verify, rows, required).Ok? ==> Authenticate(header, verify).Ok?
    ensures BearerToken(header).None? ==> Decide(header, verify, rows, required) == Err(Unauthorized(Malformed))
  {
  }

  /** On a route without declared roles, authentication alone decides. */
  lemma NoRolesAuthenticationDecides(header: Option<string>, verify: Verifier, rows: seq<Account>, required: Option<seq<UserRole>>)
    requires required.None? || required.value == []
    ensures Decide(header, verify, rows, required).Ok? <==> Identify(header, verify, rows).Ok?
  {
  }

  /** An employee holding a valid token on an admin-only route: `AuthGuard`
      lets the request through, this guard refuses it with Forbidden. */
  lemma EmployeeOnAdminRoute(header: Option<string>, verify: Verifier, rows: seq<Account>)
    requires Identify(header, verify, rows).Ok? && Identify(header, verify, rows).value.account.role == EMPLOYEE
    ensures Authenticate(header, verify).Ok?
    ensures Decide(header, verify, rows, Some([ADMIN])) == Err(Forbidden(ForbiddenMessage(EMPLOYEE, [ADMIN])))
  {
  }

  /** The role claimed in the token is not what is checked: the stored one is. */
  lemma StoredRoleDecides(header: Option<string>, verify: Verifier, rows: seq<Account>, required: Option<seq<UserRole>>)
    requires Identify(header, verify, rows).Ok?
    ensures var who := Identify(header, verify, rows).value;
      Decide(header, verify, rows, required) == Authorize(rows[who.payload.sub - 1].role, required)
  {
  }

  class AuthRolesGuard {
    const verify: Verifier
    const usersService: Users.UsersService

    constructor(verify: Verifier, usersService: Users.UsersService)
      ensures this.verify == verify && this.usersService == usersService
    {
      this.verify := verify;
      this.usersService := usersService;
    }

    /** `canActivate` on a route declaring `required`. The payload is
        attached to the request as soon as authentication succeeds, before
        the role check. */
    method CanActivate(request: Request, required: Option<seq<UserRole>>) returns (r: Result<bool>)
      modifies request
      ensures request.authorization == old(request.authorization)
      ensures r == Decide(old(request.authorization), verify, usersService.users.rows, required)
      ensures var who := Identify(old(request.authorization), verify, usersService.users.rows);
        && (who.Ok? ==> request.user == Some(who.value.payload))
        && (who.Err? ==> request.user == old(request.user))
    {
      var token := BearerToken(request.authorization);
      if token.None? {
        return Err(Unauthorized(Malformed));
      }
      var payload := verify(token.value);
      if payload.None? {
        return Err(Unauthorized(InvalidToken));
      }
      var user := usersService.GetCurrentUser(payload.value.sub);
      if user.None? {
        return Err(Unauthorized(InvalidToken));
      }
      request.user := payload;
      if required.None? || |required.value| == 0 {
        return Ok(true);
      }
      if user.value.role in required.value {
        return Ok(true);
      }
      r := Err(Forbidden(ForbiddenMessage(user.value.role, required.value)));
    }
  }
}
