/** Request gating: `authenticate` reads the bearer token of the
    Authorization header (section 2.1 of RFC 6750), verifies it and attaches
    the active user it names to the request; `authorize` admits the request
    only when the attached user's role is among the route's roles. Token
    verification (JWT signature and expiry) is the parameter `verifyToken`,
    which yields the user id the token carries, or None when it does not verify. */
module Auth {
  import opened Common
  import opened Text

  const BearerPrefix: string := "Bearer "

  /** The token of a bearer header: the header with its first 7 characters
      ("Bearer ") removed; None when the header is missing or has another scheme. */
  function BearerToken(header: Option<string>): (token: Option<string>)
    ensures token.Some? <==> header.Some? && StartsWith(header.value, BearerPrefix)
    ensures token.Some? ==> header.value == BearerPrefix + token.value
  {
    if header.Some? && StartsWith(header.value, BearerPrefix) then
      assert header.value == header.value[..7] + header.value[7..];
      Some(header.value[7..])
    else
      None
  }

  /** The decision of `authenticate`: the active user named by a verifying
      bearer token, or 401. */
  function CheckCredentials(header: Option<string>, verifyToken: string -> Option<Uuid>,
                            users: map<Uuid, User>): (r: Result<User>)
    ensures r.Err? ==> r.status == Unauthorized
    ensures r.Ok? <==>
              && BearerToken(header).Some?
              && verifyToken(BearerToken(header).value).Some?
              && verifyToken(BearerToken(header).value).value in users
              && users[verifyToken(BearerToken(header).value).value].isActive
    ensures r.Ok? ==> r.value.isActive && r.value in users.Values
    ensures r.Ok? ==> r.value == users[verifyToken(BearerToken(header).value).value]
  {
    match BearerToken(header)
    case None => Err(Unauthorized)
    case Some(token) =>
      match verifyToken(token)
      case None => Err(Unauthorized)
      case Some(id) =>
        if id !in users || !users[id].isActive then Err(Unauthorized) else Ok(users[id])
  }

  datatype Gate = Proceed | Deny(status: int)

  /** `authorize(...roles)`: 401 without an attached user, 403 when the user's
      role is not listed, and proceed otherwise. */
  function Authorize(user: Option<User>, roles: seq<Role>): (g: Gate)
    ensures user.None? ==> g == Deny(Unauthorized)
    ensures user.Some? && user.value.role in roles ==> g == Proceed
    ensures user.Some? && user.value.role !in roles ==> g == Deny(Forbidden)
  {
    if user.None? then Deny(Unauthorized)
    else if user.value.role !in roles then Deny(Forbidden)
    else Proceed
  }

  /** Whether an authenticated caller passes `authorize(...roles)`. */
  predicate Permits(caller: User, roles: seq<Role>) {
    Authorize(Some(caller), roles) == Proceed
  }

  /** An incoming request: its Authorization header and the user that
      `authenticate` attaches. */
  class Request {
    const authorization: Option<string>
    var user: Option<User>

    constructor (authorization: Option<string>)
      ensures this.authorization == authorization && user == None
    {
      this.authorization := authorization;
      user := None;
    }

    /** `authenticate`: on success the user is attached and the request
        proceeds; on failure the answer is 401 and no user is attached. */
    method Authenticate(verifyToken: string -> Option<Uuid>, users: map<Uuid, User>) returns (r: Result<User>)
      modifies this
      ensures r == CheckCredentials(authorization, verifyToken, users)
      ensures user == if r.Ok? then Some(r.value) else old(user)
    {
      r := CheckCredentials(authorization, verifyToken, users);
      if r.Ok? {
        user := Some(r.value);
      }
    }
  }

  /** A missing header, or one with another scheme, is answered 401 whatever
      the token verifier and the users are. */
  lemma NoBearerNoEntry(header: Option<string>, verifyToken: string -> Option<Uuid>, users: map<Uuid, User>)
    requires header.None? || !StartsWith(header.value, BearerPrefix)
    ensures CheckCredentials(header, verifyToken, users) == Err(Unauthorized)
  {
  }

  /** Authentication followed by authorisation lets a request through exactly
      when the token names an active user whose role is listed. */
  lemma GateOfAuthenticatedRequest(header: Option<string>, verifyToken: string -> Option<Uuid>,
                                   users: map<Uuid, User>, roles: seq<Role>)
    ensures var r := CheckCredentials(header, verifyToken, users);
            var attached := if r.Ok? then Some(r.value) else None;
            Authorize(attached, roles) == Proceed <==> r.Ok? && r.value.isActive && r.value.role in roles
  {
  }
}
