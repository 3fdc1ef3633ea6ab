/** src/users/guards/auth.guard.ts: the bearer-token guard.

    The `Authorization` header is split on single spaces; the first word
    must be `Bearer` and the second a non-empty token, further words are
    ignored. The JWT check (`verifyAsync` with the `JWT_SECRET`
    configuration value) is not interpreted: it is a function giving the
    payload of a token it accepts. */
module AuthGuard {
  import opened Wrappers
  import opened JsStrings
  import opened UserEntity

  const Malformed: string := "Authorization header is missing or malformed"
  const InvalidToken: string := "Invalid or expired token"

  /** `jwtService.verifyAsync(token, { secret })`: the payload, or a rejection. */
  type Verifier = string -> Option<JwtPayload>

  /** `const [type, token] = header?.split(' ') ?? []`, accepted when
      `type === 'Bearer'` and `token` is truthy. */
  function BearerToken(header: Option<string>): (t: Option<string>)
    ensures header.None? ==> t.None?
    ensures t.Some? ==> t.value != [] && ' ' !in t.value
  {
    if header.None? then None
    else
      var parts := Split(header.value, ' ');
      if parts[0] != "Bearer" || |parts| < 2 || parts[1] == [] then None
      else Some(parts[1])
  }

  /** The shape of a header `BearerToken` accepts. */
  predicate BearerShape(h: string, t: string) {
    && t != [] && ' ' !in t
    && StartsWith(h, "Bearer " + t)
    && (|h| == 7 + |t| || h[7 + |t|] == ' ')
  }

  /** A join of several parts is the first part, the separator, and the join of the others. */
  lemma JoinHead(words: seq<string>, sep: string)
    requires |words| >= 1
    ensures |words| == 1 ==> Join(words, sep) == words[0]
    ensures |words| > 1 ==> Join(words, sep) == words[0] + sep + Join(words[1..], sep)
  {
    if |words| > 1 {
      assert [words[0]] + words[1..] == words;
      JoinCons(words[0], words[1..], sep);
    }
  }

  lemma {:induction false} BearerTokenSound(h: string, t: string)
    requires BearerToken(Some(h)) == Some(t)
    ensures BearerShape(h, t)
  {
    var parts := Split(h, ' ');
    JoinSplit(h, ' ');
    JoinHead(parts, " ");
    var words := parts[1..];
    var rest := Join(words, " ");
    assert h == "Bearer" + " " + rest;
    JoinHead(words, " ");
    var after: string := if |words| > 1 then " " + Join(words[1..], " ") else [];
    assert rest == t + after;
    assert h == ("Bearer " + t) + after;
    assert h[..7 + |t|] == "Bearer " + t;
  }

  lemma {:induction false} BearerTokenComplete(h: string, t: string)
    requires BearerShape(h, t)
    ensures BearerToken(Some(h)) == Some(t)
  {
    assert h[..7 + |t|] == "Bearer " + t;
    assert h[..6] == h[..7 + |t|][..6] == "Bearer";
    SplitFirst(h, ' ', 6);
    var tail := h[7..];
    assert tail[..|t|] == t;
    SplitFirst(tail, ' ', |t|);
  }

  /** The header carries token `t` exactly when it reads "Bearer ", then `t`
      (non-empty, without spaces), then nothing or a space. */
  lemma BearerTokenSpec(h: string, t: string)
    ensures BearerToken(Some(h)) == Some(t) <==> BearerShape(h, t)
  {
    if BearerToken(Some(h)) == Some(t) {
      BearerTokenSound(h, t);
    }
    if BearerShape(h, t) {
      BearerTokenComplete(h, t);
    }
  }

  /** Words after the token do not matter. */
  lemma ExtraWordsIgnored(t: string, extra: string)
    requires t != [] && ' ' !in t
    ensures BearerToken(Some("Bearer " + t + " " + extra)) == BearerToken(Some("Bearer " + t)) == Some(t)
  {
    var h := "Bearer " + t + " " + extra;
    assert h[..7 + |t|] == "Bearer " + t;
    BearerTokenComplete(h, t);
    BearerTokenComplete("Bearer " + t, t);
  }

  /** The decision of the guard: the token's payload, or Unauthorized with
      the message of the step that failed. */
  function Authenticate(header: Option<string>, verify: Verifier): (r: Result<JwtPayload>)
    ensures r.Ok? <==> BearerToken(header).Some? && verify(BearerToken(header).value).Some?
    ensures r.Ok? ==> r.value == verify(BearerToken(header).value).value
    ensures BearerToken(header).None? ==> r == Err(Unauthorized(Malformed))
    ensures BearerToken(header).Some? && verify(BearerToken(header).value).None? ==> r == Err(Unauthorized(InvalidToken))
  {
    match BearerToken(header)
    case None => Err(Unauthorized(Malformed))
    case Some(token) =>
      match verify(token)
      case None => Err(Unauthorized(InvalidToken))
      case Some(payload) => Ok(payload)
  }

  /** A request as the guards see it: the header, and the payload they attach. */
  class Request {
    var authorization: Option<string>
    var user: Option<JwtPayload>

    constructor(authorization: Option<string>)
      ensures this.authorization == authorization && user == None
    {
      this.authorization := authorization;
      user := None;
    }
  }

  class AuthGuard {
    const verify: Verifier

    constructor(verify: Verifier)
      ensures this.verify == verify
    {
      this.verify := verify;
    }

    /** `canActivate`: true with the payload attached to the request, or the
        exception with the request untouched. No role is looked at. */
    method CanActivate(request: Request) returns (r: Result<bool>)
      modifies request
      ensures request.authorization == old(request.authorization)
      ensures var a := Authenticate(old(request.authorization), verify);
        && (a.Ok? ==> r == Ok(true) && request.user == Some(a.value))
        && (a.Err? ==> r == Err(a.error) && request.user == old(request.user))
    {
      var token := BearerToken(request.authorization);
      if token.None? {
        return Err(Unauthorized(Malformed));
      }
      var payload := verify(token.value);
      if payload.None? {
        return Err(Unauthorized(InvalidToken));
      }
      request.user := payload;
      r := Ok(true);
    }
  }
}
