/**
  The [Authorize(...)] action filter: before a guarded action runs it checks, in order, that
  the auth-token cookie is present, that the principal carries a numeric name-identifier
  claim, and that the user's role grants every listed permission.
 */
module AuthorizeAttribute {
  import opened Common
  import Text
  import opened Permissions
  import opened Data
  import RoleService
  import AppAuthenticationService

  /** The cookie holding the access token. */
  const AuthTokenCookieName := AppAuthenticationService.AuthTokenCookieName

  /** ClaimTypes.NameIdentifier. */
  const NameIdentifierClaimType := "http://schemas.xmlsoap.org/ws/2005/05/identity/claims/nameidentifier"

  /** The response the filter writes instead of running the action. */
  datatype ContentResult = ContentResult(statusCode: int, contentType: string, code: string, reason: string)

  /** What the filter does: run the action, or answer with a response. */
  datatype FilterOutcome = Next | Respond(result: ContentResult)

  const NoTokenResponse := ContentResult(401, "application/json", "AUTHORIZATION_FAILED", "No Authorization token found...")
  const NoPrincipalResponse := ContentResult(401, "application/json", "AUTHORIZATION_FAILED", "No user principal found...")
  const ForbiddenResponse := ContentResult(403, "application/json", "FORBIDDEN", "Action is not allowed for this user...")

  /** Request.Cookies[name]: None when the cookie is absent. */
  function CookieValue(cookies: map<string, string>, name: string): (v: Option<string>)
    ensures v.Some? <==> name in cookies
    ensures v.Some? ==> v.value == cookies[name]
  {
    if name in cookies then Some(cookies[name]) else None
  }

  /** The request carries a non-empty auth-token cookie. */
  predicate HasToken(cookies: map<string, string>) {
    !Text.IsNullOrEmpty(CookieValue(cookies, AuthTokenCookieName))
  }

  /** GetUserId: the first name-identifier claim, or "none" when there is none, parsed as a long. */
  function GetUserId(claims: seq<Claim>): (uid: Option<int>)
    ensures uid.Some? <==>
      (exists i :: 0 <= i < |claims| && claims[i].claimType == NameIdentifierClaimType)
      && Text.TryParseLong(FirstClaimValue(claims, NameIdentifierClaimType).value).Some?
    ensures uid.Some? ==> Text.TryParseLong(FirstClaimValue(claims, NameIdentifierClaimType).value) == uid
  {
    var raw := FirstClaimValue(claims, NameIdentifierClaimType).GetOr("none");
    Text.NoneIsNotALong();
    Text.TryParseLong(raw)
  }

  /** A principal whose first name-identifier claim is the decimal form of a long has that id. */
  lemma GetUserIdReadsWrittenId(claims: seq<Claim>, id: int)
    requires Text.LongMin <= id <= Text.LongMax
    requires FirstClaimValue(claims, NameIdentifierClaimType) == Some(Text.DecimalString(id))
    ensures GetUserId(claims) == Some(id)
  {
    Text.ParseDecimalString(id);
  }

  /** ClaimTypes.Role. */
  const RoleClaimType := "http://schemas.microsoft.com/ws/2008/06/identity/claims/role"

  /** The bearer handler's inbound claim-type mapping from short JWT names to the long claim types. */
  function InboundClaims(claims: seq<Claim>): (mapped: seq<Claim>)
    ensures |mapped| == |claims|
    ensures forall i :: 0 <= i < |claims| ==> mapped[i].value == claims[i].value
    ensures forall i :: 0 <= i < |claims| ==>
      (mapped[i].claimType == NameIdentifierClaimType <==> claims[i].claimType in {AppAuthenticationService.NameIdClaimType, NameIdentifierClaimType})
  {
    seq(|claims|, i requires 0 <= i < |claims| =>
      var c := claims[i];
      if c.claimType == AppAuthenticationService.NameIdClaimType then Claim(NameIdentifierClaimType, c.value)
      else if c.claimType == AppAuthenticationService.RoleClaimType then Claim(RoleClaimType, c.value)
      else c)
  }

  /**
    The access token a sign-in issues authenticates its user: once the bearer handler maps its
    claims, GetUserId reads back the user's id.
   */
  lemma IssuedAccessTokenIdentifiesUser(user: User, now: int, host: string)
    requires Text.LongMin <= user.id <= Text.LongMax
    ensures var cookie := AppAuthenticationService.LoginCookies(user, now, host)[0];
      && cookie.key == AuthTokenCookieName
      && GetUserId(InboundClaims(cookie.value.claims)) == Some(user.id)
  {
    var claims := AppAuthenticationService.LoginCookies(user, now, host)[0].value.claims;
    assert InboundClaims(claims)[0] == Claim(NameIdentifierClaimType, Text.DecimalString(user.id));
    GetUserIdReadsWrittenId(InboundClaims(claims), user.id);
  }

  /** The filter's decision as a function of the request and the store. */
  function FilterDecision(
    cookies: map<string, string>, claims: seq<Claim>, users: map<int, User>, roles: map<int, Role>, scopes: seq<Permission>)
    : (outcome: FilterOutcome)
    ensures outcome.Respond? ==> outcome.result in {NoTokenResponse, NoPrincipalResponse, ForbiddenResponse}
    ensures outcome.Respond? && outcome.result.statusCode == 403 ==>
      GetUserId(claims).Some? && !RoleService.Authorized(users, roles, GetUserId(claims).value, scopes)
  {
    if !HasToken(cookies) then Respond(NoTokenResponse)
    else if GetUserId(claims).None? then Respond(NoPrincipalResponse)
    else if !RoleService.Authorized(users, roles, GetUserId(claims).value, scopes) then Respond(ForbiddenResponse)
    else Next
  }

  /**
    OnActionExecutionAsync. `claims` is the principal the bearer handler built from the
    request; `scopes` are the permissions the attribute was declared with.
   */
  method OnActionExecution(db: Store, cookies: map<string, string>, claims: seq<Claim>, scopes: seq<Permission>)
    returns (outcome: FilterOutcome)
    ensures outcome == FilterDecision(cookies, claims, db.users, db.roles, scopes)
  {
    var jwt := CookieValue(cookies, AuthTokenCookieName);
    if Text.IsNullOrEmpty(jwt) {
      return Respond(NoTokenResponse);
    }
    var userId := GetUserId(claims);
    if userId.None? {
      return Respond(NoPrincipalResponse);
    }
    var allowed := RoleService.IsUserAuthorizedForAction(db, userId.value, scopes);
    if !allowed {
      return Respond(ForbiddenResponse);
    }
    outcome := Next;
  }

  /**
    The guard chain: a missing or empty cookie gives the first 401, then a missing or
    non-numeric user id the second 401, then a refused permission check the 403; the action
    runs iff all three pass.
   */
  lemma GuardChain(
    cookies: map<string, string>, claims: seq<Claim>, users: map<int, User>, roles: map<int, Role>, scopes: seq<Permission>)
    ensures !HasToken(cookies) ==> FilterDecision(cookies, claims, users, roles, scopes) == Respond(NoTokenResponse)
    ensures HasToken(cookies) && GetUserId(claims).None? ==>
      FilterDecision(cookies, claims, users, roles, scopes) == Respond(NoPrincipalResponse)
    ensures HasToken(cookies) && GetUserId(claims).Some? && !RoleService.Authorized(users, roles, GetUserId(claims).value, scopes) ==>
      FilterDecision(cookies, claims, users, roles, scopes) == Respond(ForbiddenResponse)
    ensures FilterDecision(cookies, claims, users, roles, scopes) == Next <==>
      HasToken(cookies) && GetUserId(claims).Some? && RoleService.Authorized(users, roles, GetUserId(claims).value, scopes)
  {
  }

  /** Both 401 answers come before any permission check: they do not depend on the store. */
  lemma UnauthenticatedBeforeForbidden(
    cookies: map<string, string>, claims: seq<Claim>,
    users1: map<int, User>, roles1: map<int, Role>, users2: map<int, User>, roles2: map<int, Role>,
    scopes: seq<Permission>)
    requires !HasToken(cookies) || GetUserId(claims).None?
    ensures FilterDecision(cookies, claims, users1, roles1, scopes) == FilterDecision(cookies, claims, users2, roles2, scopes)
    ensures FilterDecision(cookies, claims, users1, roles1, scopes).Respond?
    ensures FilterDecision(cookies, claims, users1, roles1, scopes).result.statusCode == 401
  {
  }
}
