/** The engagement app's route guards: `protect` (a bearer token naming a stored member, with a
    development-only open-access bypass) and `authorize` (a role list). Both hand their errors to the
    central error handler. */
module AuthMiddleware {
  import opened Common
  import Text
  import opened ErrorFlow
  import opened Members

  /** Who a request is from once admitted (`req.user`). */
  datatype Principal = Principal(memberId: string, role: Role)

  /** The identity the development bypass installs. */
  const DevPrincipal := Principal("000000000000000000000001", User)

  /** What `jwt.verify` does with the token: decode it, or throw by error name. An absent token
      reaches `verify` as `undefined`; what the library answers then is the `verify` parameter's
      answer for `None`, which the model does not fix. */
  datatype TokenCheck = Decoded(id: string) | Malformed | Expired | OtherFailure

  /** The process environment the guard reads. */
  datatype Env = Env(nodeEnv: string, allowOpenAccess: Option<string>)

  predicate OpenAccess(env: Env) {
    env.nodeEnv == "development" && env.allowOpenAccess == Some("true")
  }

  datatype GuardResult = Admit(principal: Principal) | Reject(err: ErrorObj)

  /** The text after the first space of the header, as `split(' ')[1]`. */
  function TokenPart(header: string): Option<string> {
    var parts := Text.Split(header, ' ');
    if |parts| < 2 then None else Some(parts[1])
  }

  /** `protect`. A header starting with "Bearer" has its token verified and its member looked up;
      every failure inside is a 401 whose message follows the error's name, and a missing member
      (thrown as a plain error) reads "Not authorized to access this route". Without such a header the
      request is admitted as the development principal when open access is on, and refused with 401
      otherwise. */
  function Protect(authorization: Option<string>, env: Env, verify: Option<string> -> TokenCheck,
                   users: Fetch<seq<Member>>): (r: GuardResult)
    ensures r.Reject? ==> r.err.statusCode == Some(401)
    ensures (authorization.None? || !Text.StartsWith(authorization.value, "Bearer")) ==>
      r == (if OpenAccess(env) then Admit(DevPrincipal) else Reject(CreateError(401, "Not authorized, no token")))
    ensures r.Admit? && r.principal != DevPrincipal ==>
      && authorization.Some? && Text.StartsWith(authorization.value, "Bearer")
      && verify(TokenPart(authorization.value)).Decoded? && users.Fetched?
      && var id := verify(TokenPart(authorization.value)).id;
      && FindMember(users.value, id).Some?
      && r.principal == Principal(id, users.value[FindMember(users.value, id).value].role)
    ensures authorization.Some? && Text.StartsWith(authorization.value, "Bearer") ==>
      (r.Admit? <==>
        (&& verify(TokenPart(authorization.value)).Decoded? && users.Fetched?
         && FindMember(users.value, verify(TokenPart(authorization.value)).id).Some?))
    ensures authorization.Some? && Text.StartsWith(authorization.value, "Bearer") ==>
      && (verify(TokenPart(authorization.value)).Malformed? ==> r == Reject(CreateError(401, "Invalid token")))
      && (verify(TokenPart(authorization.value)).Expired? ==> r == Reject(CreateError(401, "Token expired")))
      && (verify(TokenPart(authorization.value)).OtherFailure? ==>
            r == Reject(CreateError(401, "Not authorized to access this route")))
  {
    match authorization
    case Some(h) =>
      if Text.StartsWith(h, "Bearer") then
        match verify(TokenPart(h))
        case Malformed => Reject(CreateError(401, "Invalid token"))
        case Expired => Reject(CreateError(401, "Token expired"))
        case OtherFailure => Reject(CreateError(401, "Not authorized to access this route"))
        case Decoded(id) =>
          match users
          case Unavailable => Reject(CreateError(401, "Not authorized to access this route"))
          case Fetched(us) =>
            match FindMember(us, id)
            case None => Reject(CreateError(401, "Not authorized to access this route"))
            case Some(i) => Admit(Principal(id, us[i].role))
      else if OpenAccess(env) then Admit(DevPrincipal)
      else Reject(CreateError(401, "Not authorized, no token"))
    case None =>
      if OpenAccess(env) then Admit(DevPrincipal)
      else Reject(CreateError(401, "Not authorized, no token"))
  }

  /** The bypass never applies outside development: there, a request without a bearer header is
      always refused. */
  lemma NoBypassOutsideDevelopment(authorization: Option<string>, env: Env, verify: Option<string> -> TokenCheck,
                                   users: Fetch<seq<Member>>)
    requires env.nodeEnv != "development"
    requires authorization.None? || !Text.StartsWith(authorization.value, "Bearer")
    ensures Protect(authorization, env, verify, users).Reject?
  {
  }

  /** A stale token for a removed member is refused even though it verifies; the message does not
      say why. */
  lemma RemovedMemberRefused(header: string, env: Env, verify: Option<string> -> TokenCheck, users: seq<Member>)
    requires Text.StartsWith(header, "Bearer") && verify(TokenPart(header)).Decoded?
    requires forall j :: 0 <= j < |users| ==> users[j].memberId != verify(TokenPart(header)).id
    ensures Protect(Some(header), env, verify, Fetched(users)) == Reject(CreateError(401, "Not authorized to access this route"))
  {
  }

  /** Through the central handler as written, every refusal of `protect` reaches the client as 500,
      not 401; through the corrected handler it is 401. */
  lemma ProtectRefusalStatus(authorization: Option<string>, env: Env, verify: Option<string> -> TokenCheck,
                             users: Fetch<seq<Member>>, stack: string, production: bool)
    requires Protect(authorization, env, verify, users).Reject?
    ensures ErrorHandlerAsWritten(200, Protect(authorization, env, verify, users).err, stack, production).status == 500
    ensures StatusOf(Failure(Protect(authorization, env, verify, users).err)) == 401
  {
  }

  /** `authorize(...roles)`: a request with no principal, or whose role is not listed, is refused
      with 403. */
  function Authorize(roles: seq<Role>, principal: Option<Principal>): (r: Option<ErrorObj>)
    ensures r.None? <==> principal.Some? && principal.value.role in roles
    ensures r.Some? ==> r.value.statusCode == Some(403)
  {
    if principal.None? then Some(CreateError(403, "Role 'undefined' is not authorized to access this route"))
    else if principal.value.role !in roles then
      Some(CreateError(403, "Role '" + RoleName(principal.value.role) + "' is not authorized to access this route"))
    else None
  }

  /** The development principal is an ordinary user, so admin-only routes stay closed to it. */
  lemma BypassIsNotAdmin()
    ensures Authorize([Admin], Some(DevPrincipal)).Some?
    ensures Authorize([Admin, TeamLead], Some(DevPrincipal)).Some?
  {
  }
}
