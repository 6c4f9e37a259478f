/** The `authenticateToken` middleware in front of the tenant routes: a bearer token, a known user,
    and, outside a few always-open route prefixes, a subscription that is neither inactive nor
    canceled. */
module AccessGate {
  import opened Common
  import Text
  import opened Subscriptions

  /** Route prefixes that stay reachable whatever the subscription says. */
  const AllowedRoutes: seq<string> := ["/api/auth", "/api/subscriptions", "/api/settings", "/api/account"]

  /** The payload of a verified token. */
  datatype Claims = Claims(userId: string, companyId: string)

  datatype Request = Request(verb: string, originalUrl: string, authorization: Option<string>)

  /** Who the request is from once the gate lets it through (`req.user` and `req.companyId`). */
  datatype Identity = Identity(userId: string, companyId: string)

  /** `next()` (with the identity attached, except for a preflight request) or an error response. */
  datatype GateOutcome =
    | Pass(identity: Option<Identity>)
    | Refuse(status: int, error: string)

  /** `authorization?.split(' ')[1]`, falsy values (absent, empty) read as no token. */
  function BearerToken(authorization: Option<string>): (r: Option<string>)
    ensures r.Some? ==>
      && authorization.Some? && |Text.Split(authorization.value, ' ')| >= 2
      && r.value != "" && r.value == Text.Split(authorization.value, ' ')[1]
    ensures r.None? <==>
      (|| authorization.None?
       || |Text.Split(authorization.value, ' ')| < 2
       || Text.Split(authorization.value, ' ')[1] == "")
  {
    match authorization
    case None => None
    case Some(h) =>
      var parts := Text.Split(h, ' ');
      if |parts| < 2 || parts[1] == "" then None else Some(parts[1])
  }

  /** The header `"<scheme> <token>"` yields the token, whatever the scheme word is. */
  lemma BearerTokenOf(scheme: string, token: string)
    requires ' ' !in scheme && ' ' !in token && token != ""
    ensures BearerToken(Some(scheme + " " + token)) == Some(token)
  {
    Text.SplitAfterPiece(scheme, ' ', token);
    Text.SplitNoSeparator(token, ' ');
    assert scheme + " " + token == scheme + [' '] + token;
  }

  /** The claims of the request's token: None when there is no token or it does not verify. */
  function Claimed(req: Request, verify: string -> Option<Claims>): Option<Claims> {
    match BearerToken(req.authorization)
    case None => None
    case Some(token) => verify(token)
  }

  /** `ALLOWED_ROUTES.some(route => req.originalUrl.startsWith(route))`. */
  predicate AlwaysAllowed(url: string) {
    exists i :: 0 <= i < |AllowedRoutes| && Text.StartsWith(url, AllowedRoutes[i])
  }

  /** The subscription test the gate applies: a record exists and its status is not "inactive" or
      "canceled" ("past_due" and "unpaid" pass). */
  predicate Subscribed(subs: seq<Subscription>, companyId: string) {
    FindSubscription(subs, companyId).Some?
    && subs[FindSubscription(subs, companyId).value].status != "inactive"
    && subs[FindSubscription(subs, companyId).value].status != "canceled"
  }

  /** `authenticateToken`. Token verification is the function `verify` (None when the signature or
      expiry check throws); the user and subscription collections are reads that may fail, and every
      failure inside the `try` answers 403 "Invalid token". */
  function Authenticate(req: Request, verify: string -> Option<Claims>, users: Fetch<set<string>>,
                        subsRead: Fetch<seq<Subscription>>): (r: GateOutcome)
    ensures req.verb == "OPTIONS" ==> r == Pass(None)
    ensures r.Refuse? ==> r.status == 401 || r.status == 403
    ensures req.verb != "OPTIONS" ==>
      (r.Pass? <==>
        && Claimed(req, verify).Some? && users.Fetched? && Claimed(req, verify).value.userId in users.value
        && (AlwaysAllowed(req.originalUrl) || (subsRead.Fetched? && Subscribed(subsRead.value, Claimed(req, verify).value.companyId))))
    ensures r.Pass? && req.verb != "OPTIONS" ==>
      && Claimed(req, verify).Some? && users.Fetched? && Claimed(req, verify).value.userId in users.value
      && r.identity == Some(Identity(Claimed(req, verify).value.userId, Claimed(req, verify).value.companyId))
      && (AlwaysAllowed(req.originalUrl) || (subsRead.Fetched? && Subscribed(subsRead.value, Claimed(req, verify).value.companyId)))
    ensures r.Refuse? && r.status == 401 <==>
      && req.verb != "OPTIONS"
      && (|| BearerToken(req.authorization).None?
          || (Claimed(req, verify).Some? && users.Fetched? && Claimed(req, verify).value.userId !in users.value))
    ensures req.verb != "OPTIONS" && BearerToken(req.authorization).Some? && Claimed(req, verify).None? ==>
      r == Refuse(403, "Invalid token")
  {
    if req.verb == "OPTIONS" then Pass(None)
    else
      match BearerToken(req.authorization)
      case None => Refuse(401, "No token provided")
      case Some(token) =>
        match verify(token)
        case None => Refuse(403, "Invalid token")
        case Some(claims) =>
          match users
          case Unavailable => Refuse(403, "Invalid token")
          case Fetched(known) =>
            if claims.userId !in known then Refuse(401, "User not found")
            else
              var who := Some(Identity(claims.userId, claims.companyId));
              if AlwaysAllowed(req.originalUrl) then Pass(who)
              else
                match subsRead
                case Unavailable => Refuse(403, "Invalid token")
                case Fetched(subs) =>
                  if Subscribed(subs, claims.companyId) then Pass(who)
                  else Refuse(403, "Subscription required")
  }

  /** A request past the token and user checks on a route outside the open prefixes passes exactly
      when the company is subscribed. */
  lemma GateOnSubscription(req: Request, verify: string -> Option<Claims>, known: set<string>, subs: seq<Subscription>)
    requires req.verb != "OPTIONS" && !AlwaysAllowed(req.originalUrl)
    requires Claimed(req, verify).Some? && Claimed(req, verify).value.userId in known
    ensures var c := Claimed(req, verify).value.companyId;
            Authenticate(req, verify, Fetched(known), Fetched(subs)).Pass? <==> Subscribed(subs, c)
    ensures var c := Claimed(req, verify).value.companyId;
            !Subscribed(subs, c) ==> Authenticate(req, verify, Fetched(known), Fetched(subs)) == Refuse(403, "Subscription required")
  {
  }

  /** The prefix test is on raw text, not on path segments: whatever follows an open prefix, with or
      without a "/" in between (so "/api/authority" as well as "/api/auth/login"), skips the
      subscription check; and a URL outside "/api/" never does. */
  lemma PrefixNotSegment(i: nat, rest: string, url: string)
    requires i < |AllowedRoutes|
    ensures AlwaysAllowed(AllowedRoutes[i] + rest)
    ensures !Text.StartsWith(url, "/api/") ==> !AlwaysAllowed(url)
  {
    var u := AllowedRoutes[i] + rest;
    assert u[..|AllowedRoutes[i]|] == AllowedRoutes[i];
    forall k | 0 <= k < |AllowedRoutes| && Text.StartsWith(url, AllowedRoutes[k])
      ensures Text.StartsWith(url, "/api/")
    {
      assert AllowedRoutes[k][..5] == "/api/";
      assert url[..5] == url[..|AllowedRoutes[k]|][..5];
    }
  }

  /** For records that passed the schema, the gate's test agrees with what `check-status` reports:
      the company is subscribed exactly when the reported status is neither "inactive" nor
      "canceled". */
  lemma GateAgreesWithCheckStatus(subs: seq<Subscription>, companyId: string)
    requires forall j :: 0 <= j < |subs| ==> ValidSubscription(subs[j])
    ensures Subscribed(subs, companyId) <==>
      (CheckStatus(subs, companyId) != "inactive" && CheckStatus(subs, companyId) != "canceled")
  {
    match FindSubscription(subs, companyId)
    case None =>
    case Some(i) =>
      assert IsStatusName(subs[i].status);
  }

  /** Once a cancel succeeds, the company is locked out of every route outside the open prefixes. */
  lemma CancelLocksOut(subs: seq<Subscription>, companyId: string, now: int)
    requires CancelSubscription(subs, companyId, Fetched(()), now).0 == 200
    ensures !Subscribed(CancelSubscription(subs, companyId, Fetched(()), now).1, companyId)
  {
    var i := FindSubscription(subs, companyId).value;
    var after := CancelSubscription(subs, companyId, Fetched(()), now).1;
    assert forall j :: 0 <= j < |subs| ==> after[j].companyId == subs[j].companyId;
    assert FindSubscription(after, companyId) == Some(i);
  }
}
