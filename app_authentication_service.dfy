/**
  AppAuthenticationService: Azure AD single sign-on (the authorize redirect and the form-post
  callback), the application's own access and refresh tokens and the cookies carrying them,
  token refresh, password sign-in and password reset.
 */
module AppAuthenticationService {
  import opened Common
  import Text
  import opened Data
  import Jwk
  import AuthenticationHelpers

  const AuthTokenCookieName := "X-Authentication-Token"
  const RefreshTokenCookieName := "X-Refresh-Token"
  const AuthTokenLifetimeSeconds := 3600
  const RefreshTokenLifetimeSeconds := 604800

  /** How long the sealed SSO state stays valid: 15 minutes. */
  const StateLifetimeSeconds := 900

  /** 2038-01-19T00:00:00Z in Unix seconds: no token expires later. */
  const MaxTokenExpiry := 2147472000

  const TokenIssuer := "SBJ.TimeTracker.API"
  const TokenAudience := "SBJ.TimeTracker.UI"

  /** The claim types the token handler writes for ClaimTypes.NameIdentifier and ClaimTypes.Role. */
  const NameIdClaimType := "nameid"
  const RoleClaimType := "role"
  const RefreshRole := "Refresh"

  /** int.MaxValue, the exclusive upper bound of the nonce draw. */
  const IntMax := 0x7FFF_FFFF

  /** The role every provisioned SSO account gets. */
  const DefaultRoleId := 1

  const RefreshCookiePath := "/api/auth/refresh"

  /** A JWT the application signs: its subject claims and registered fields; times in Unix seconds. */
  datatype Token = Token(claims: seq<Claim>, audience: string, issuer: string, issuedAt: int, expires: int)

  datatype TokenPair = TokenPair(authToken: Token, refreshToken: Option<Token>)

  function Min(a: int, b: int): (m: int)
    ensures m <= a && m <= b && (m == a || m == b)
  {
    if a <= b then a else b
  }

  /** The expiry of a token issued at `now` with the given lifetime. */
  function CappedExpiry(now: int, lifetime: int): int {
    Min(now + lifetime, MaxTokenExpiry)
  }

  /**
    GenerateTokenPair: an access token carrying only the user's id, and with `withRefresh` a
    refresh token that adds the Refresh role; each expires after its lifetime or at the 2038 cap,
    whichever is first.
   */
  function GenerateTokenPair(user: User, withRefresh: bool, now: int): (pair: TokenPair)
    ensures pair.authToken.claims == [Claim(NameIdClaimType, Text.DecimalString(user.id))]
    ensures pair.authToken.expires <= now + AuthTokenLifetimeSeconds && pair.authToken.expires <= MaxTokenExpiry
    ensures pair.authToken.expires == now + AuthTokenLifetimeSeconds || pair.authToken.expires == MaxTokenExpiry
    ensures pair.refreshToken.Some? <==> withRefresh
    ensures withRefresh ==>
      && pair.refreshToken.value.claims == [Claim(RoleClaimType, RefreshRole), Claim(NameIdClaimType, Text.DecimalString(user.id))]
      && pair.refreshToken.value.expires <= now + RefreshTokenLifetimeSeconds
      && pair.refreshToken.value.expires <= MaxTokenExpiry
      && (pair.refreshToken.value.expires == now + RefreshTokenLifetimeSeconds || pair.refreshToken.value.expires == MaxTokenExpiry)
    ensures pair.authToken.issuer == TokenIssuer && pair.authToken.audience == TokenAudience && pair.authToken.issuedAt == now
  {
    var id := Text.DecimalString(user.id);
    var access := Token([Claim(NameIdClaimType, id)], TokenAudience, TokenIssuer, now, CappedExpiry(now, AuthTokenLifetimeSeconds));
    var refresh :=
      if withRefresh then
        Some(Token([Claim(RoleClaimType, RefreshRole), Claim(NameIdClaimType, id)], TokenAudience, TokenIssuer, now,
                   CappedExpiry(now, RefreshTokenLifetimeSeconds)))
      else None;
    TokenPair(access, refresh)
  }

  datatype SameSiteMode = Unspecified | NoRestriction | Lax | Strict

  /** The cookie attributes; Expires in Unix seconds when set. */
  datatype CookieOptions = CookieOptions(
    secure: bool, httpOnly: bool, domain: string, path: string, sameSite: SameSiteMode, isEssential: bool,
    expires: Option<int>)

  /** GetDefaultCookieOptions: secure, HTTP-only, strict same-site cookies for the request host. */
  function GetDefaultCookieOptions(host: string, expires: Option<int>, refreshToken: bool, now: int): (o: CookieOptions)
    ensures o.secure && o.httpOnly && o.sameSite == Strict && o.isEssential && o.domain == host
    ensures o.path == (if refreshToken then RefreshCookiePath else "/")
    ensures o.expires.Some? <==> expires.Some?
    ensures expires.Some? ==> o.expires.value == now + expires.value
  {
    var expiry := if expires.Some? then Some(now + expires.value) else None;
    CookieOptions(true, true, host, if refreshToken then RefreshCookiePath else "/", Strict, true, expiry)
  }

  /** A cookie the API sets; the signed token string is represented by the token it encodes. */
  datatype AuthCookie = AuthCookie(key: string, value: Token, options: CookieOptions)

  /** The access-token cookie for a user. */
  function AccessCookie(user: User, now: int, host: string): AuthCookie {
    AuthCookie(AuthTokenCookieName, GenerateTokenPair(user, false, now).authToken,
      GetDefaultCookieOptions(host, Some(AuthTokenLifetimeSeconds), false, now))
  }

  /** GenerateAuthCookieResponsesForUser: the access cookie, then the refresh cookie scoped to the refresh path. */
  function LoginCookies(user: User, now: int, host: string): (cookies: seq<AuthCookie>)
    ensures |cookies| == 2
    ensures cookies[0] == AccessCookie(user, now, host)
    ensures cookies[1].key == RefreshTokenCookieName
    ensures cookies[1].value.claims == [Claim(RoleClaimType, RefreshRole), Claim(NameIdClaimType, Text.DecimalString(user.id))]
    ensures cookies[1].options.path == RefreshCookiePath && cookies[1].options.expires == Some(now + RefreshTokenLifetimeSeconds)
  {
    var pair := GenerateTokenPair(user, true, now);
    [AccessCookie(user, now, host),
     AuthCookie(RefreshTokenCookieName, pair.refreshToken.value, GetDefaultCookieOptions(host, Some(RefreshTokenLifetimeSeconds), true, now))]
  }

  /** Both token cookies expire with their tokens unless the 2038 cap cuts the token short. */
  lemma CookiesOutliveNoToken(user: User, now: int, host: string)
    ensures var cookies := LoginCookies(user, now, host);
      && cookies[0].value.expires <= cookies[0].options.expires.value
      && cookies[1].value.expires <= cookies[1].options.expires.value
    ensures now + RefreshTokenLifetimeSeconds <= MaxTokenExpiry ==>
      LoginCookies(user, now, host)[1].value.expires == LoginCookies(user, now, host)[1].options.expires.value
  {
  }

  // ----- Single sign-on -----

  /** The login state sealed into the authorize request; Nonce may deserialize as null. */
  datatype SsoState = SsoState(validUntilUtc: int, nonce: Option<string>)

  /** What deserializing the unsealed state gives: an exception, JSON null, or a state. */
  datatype StatePayload = UnreadableState | NullState | ParsedState(state: SsoState)

  /**
    The time-limited data protector and the JSON serializer: `protect` seals a string until an
    expiry time, `unprotect` at a given time yields it back or None where Unprotect throws.
   */
  datatype StateSealer = StateSealer(
    protect: (string, int) -> string,
    unprotect: (string, int) -> Option<string>,
    serialize: SsoState -> string,
    deserialize: string -> StatePayload)

  /** Sealing is undone by unsealing before the expiry, and serializing by deserializing. */
  ghost predicate SealerRoundTrips(sealer: StateSealer) {
    && (forall plain, expiresAt, t :: t <= expiresAt ==> sealer.unprotect(sealer.protect(plain, expiresAt), t) == Some(plain))
    && (forall st :: sealer.deserialize(sealer.serialize(st)) == ParsedState(st))
  }

  datatype AuthOptions = AuthOptions(clientId: string, tenantId: string, authRedirect: string)

  datatype QueryParam = QueryParam(name: string, value: string)

  /** https://login.microsoftonline.com/{tenantId}/oauth2/v2.0/authorize followed by the query. */
  datatype AuthorizeRedirect = AuthorizeRedirect(tenantId: string, query: seq<QueryParam>)

  /** The value of the first query parameter with the given name. */
  function QueryValue(query: seq<QueryParam>, name: string): (v: Option<string>)
  {
    if query == [] then None
    else if query[0].name == name then Some(query[0].value)
    else QueryValue(query[1..], name)
  }

  /** A parameter is found at its first occurrence. */
  lemma {:induction false} QueryValueAt(query: seq<QueryParam>, i: int, name: string)
    requires 0 <= i < |query| && query[i].name == name
    requires forall j :: 0 <= j < i ==> query[j].name != name
    ensures QueryValue(query, name) == Some(query[i].value)
    decreases i
  {
    if i > 0 {
      QueryValueAt(query[1..], i - 1, name);
    }
  }

  /** The state RequestLogin seals for a nonce drawn at `now`. */
  function LoginState(nonce: int, now: int): SsoState {
    SsoState(now + StateLifetimeSeconds, Some(Text.DecimalString(nonce)))
  }

  /**
    RequestLogin: an implicit-flow id_token request posted back as a form, carrying the nonce
    in the clear and, sealed for 15 minutes, the state holding the same nonce.
   */
  function RequestLogin(options: AuthOptions, nonce: int, now: int, sealer: StateSealer): (r: AuthorizeRedirect)
    requires 0 <= nonce < IntMax
    ensures r.tenantId == options.tenantId
    ensures QueryValue(r.query, "response_type") == Some("id_token")
    ensures QueryValue(r.query, "response_mode") == Some("form_post")
    ensures QueryValue(r.query, "scope") == Some("openid profile email")
    ensures QueryValue(r.query, "client_id") == Some(options.clientId)
    ensures QueryValue(r.query, "redirect_uri") == Some(options.authRedirect)
    ensures QueryValue(r.query, "nonce") == Some(Text.DecimalString(nonce))
    ensures QueryValue(r.query, "state") == Some(sealer.protect(sealer.serialize(LoginState(nonce, now)), now + StateLifetimeSeconds))
  {
    var state := LoginState(nonce, now);
    var query := [
      QueryParam("response_type", "id_token"),
      QueryParam("redirect_uri", options.authRedirect),
      QueryParam("response_mode", "form_post"),
      QueryParam("scope", "openid profile email"),
      QueryParam("nonce", Text.DecimalString(nonce)),
      QueryParam("client_id", options.clientId),
      QueryParam("state", sealer.protect(sealer.serialize(state), now + StateLifetimeSeconds))
    ];
    QueryValueAt(query, 2, "response_mode");
    QueryValueAt(query, 3, "scope");
    QueryValueAt(query, 4, "nonce");
    QueryValueAt(query, 5, "client_id");
    QueryValueAt(query, 6, "state");
    AuthorizeRedirect(options.tenantId, query)
  }

  /** Unsealing the state parameter within 15 minutes gives back a state holding the nonce sent in the clear. */
  lemma RequestLoginBindsNonce(options: AuthOptions, nonce: int, now: int, t: int, sealer: StateSealer)
    requires 0 <= nonce < IntMax && SealerRoundTrips(sealer) && t <= now + StateLifetimeSeconds
    ensures var query := RequestLogin(options, nonce, now, sealer).query;
      && sealer.unprotect(QueryValue(query, "state").value, t).Some?
      && sealer.deserialize(sealer.unprotect(QueryValue(query, "state").value, t).value)
           == ParsedState(SsoState(now + StateLifetimeSeconds, QueryValue(query, "nonce")))
  {
  }

  /** The result of the checks that run before the id token goes to the key store. */
  datatype Preflight =
    | PreflightRejected(reason: SsoRejection)
    | PreflightPassed(idToken: string, state: Option<SsoState>, token: Jwk.JwtToken)

  /** A readable payload as an optional state (None for JSON null). */
  function StateFromPayload(payload: StatePayload): Option<Option<SsoState>> {
    match payload
    case UnreadableState => None
    case NullState => Some(None)
    case ParsedState(st) => Some(Some(st))
  }

  /** Form fields present, state unsealed and deserialized, id token readable, in that order. */
  function CallbackPreflight(form: map<string, string>, now: int, sealer: StateSealer, handler: Jwk.TokenHandler): (p: Preflight)
    ensures p.PreflightPassed? ==> "state" in form && "id_token" in form && p.idToken == form["id_token"]
    ensures p.PreflightPassed? ==> sealer.unprotect(form["state"], now).Some?
    ensures p.PreflightPassed? ==> StateFromPayload(sealer.deserialize(sealer.unprotect(form["state"], now).value)) == Some(p.state)
    ensures p.PreflightPassed? ==> handler.read(form["id_token"]) == Some(p.token)
  {
    if "state" !in form || "id_token" !in form then PreflightRejected(MissingStateOrIdToken)
    else
      var unprotected := sealer.unprotect(form["state"], now);
      if unprotected.None? then PreflightRejected(StateNotUnprotected)
      else
        var payload := sealer.deserialize(unprotected.value);
        if payload.UnreadableState? then PreflightRejected(StateNotDeserialized)
        else
          var token := handler.read(form["id_token"]);
          if token.None? then PreflightRejected(IdTokenUnreadable)
          else PreflightPassed(form["id_token"], StateFromPayload(payload).value, token.value)
  }

  /** How the callback ends: refused, signing in an existing account, or issuing a new one. */
  datatype CallbackVerdict = Rejected(reason: SsoRejection) | ReuseAccount(userId: int) | IssueAccount(candidate: User)

  /** The account provisioned for an Azure AD subject: user name and Azure id are the subject, role 1. */
  function SsoAccount(sub: string, email: string, givenName: string, familyName: string): (u: User)
    requires |givenName| > 0
    ensures u.userName == sub && u.azureId == Some(sub) && u.roleId == Some(DefaultRoleId)
    ensures u.email == Some(email) && u.normalizedEmail == Some(Text.ToUpperInvariant(email))
    ensures u.normalizedUserName == Text.ToUpperInvariant(sub)
    ensures u.displayName == Text.ToLowerInvariant([givenName[0]] + "." + familyName)
    ensures !u.mustResetPassword
  {
    User(0, sub, Text.ToUpperInvariant(sub), Some(email), Some(Text.ToUpperInvariant(email)),
      Text.ToLowerInvariant([givenName[0]] + "." + familyName), Some(sub), Some(DefaultRoleId), false)
  }

  /** The checks after key validation: null state, expiry, nonce, subject, then the account. */
  function CallbackDecision(pre: Preflight, jwkValid: bool, now: int, users: map<int, User>): CallbackVerdict {
    if pre.PreflightRejected? then Rejected(pre.reason)
    else if !jwkValid then Rejected(IdTokenRejected)
    else if pre.state.None? then Rejected(StateNull)
    else if pre.state.value.validUntilUtc < now then Rejected(StateExpired)
    else
      var claims := pre.token.claims;
      if FirstClaimValue(claims, "nonce") != pre.state.value.nonce then Rejected(NonceMismatch)
      else
        var sub := FirstClaimValue(claims, "sub").GetOr("");
        if Text.IsNullOrWhiteSpace(Some(sub)) then Rejected(MissingSub)
        else
          var existing := FindByAzureId(users, sub);
          if existing.Some? then ReuseAccount(existing.value)
          else
            var email := FirstClaimValue(claims, "email");
            var given := FirstClaimValue(claims, "given_name");
            var family := FirstClaimValue(claims, "family_name");
            if Text.IsNullOrWhiteSpace(email) then Rejected(MissingEmail)
            else if Text.IsNullOrWhiteSpace(given) || Text.IsNullOrWhiteSpace(family) then Rejected(MissingName)
            else IssueAccount(SsoAccount(sub, email.value, given.value, family.value))
  }

  /** The whole callback decision, with the key store consulted only once the preflight passed. */
  function CallbackVerdictFor(
    form: map<string, string>, now: int, sealer: StateSealer, handler: Jwk.TokenHandler,
    cache: Jwk.CacheState, fetch: Jwk.FetchOutcome, users: map<int, User>): CallbackVerdict
  {
    var pre := CallbackPreflight(form, now, sealer, handler);
    var jwkValid := pre.PreflightPassed? && Jwk.ValidationResult(cache, pre.idToken, now, fetch, handler);
    CallbackDecision(pre, jwkValid, now, users)
  }

  /** An accepted callback passed every guard: valid key signature, live state, matching nonce, non-blank subject. */
  lemma AcceptedCallbackPassedAllGuards(pre: Preflight, jwkValid: bool, now: int, users: map<int, User>)
    requires !CallbackDecision(pre, jwkValid, now, users).Rejected?
    ensures pre.PreflightPassed? && jwkValid && pre.state.Some?
    ensures now <= pre.state.value.validUntilUtc
    ensures FirstClaimValue(pre.token.claims, "nonce") == pre.state.value.nonce
    ensures FirstClaimValue(pre.token.claims, "sub").Some?
      && !Text.IsNullOrWhiteSpace(FirstClaimValue(pre.token.claims, "sub"))
  {
  }

  /** An unsealable state is refused before the id token is even read, and the key store is never asked. */
  lemma UnsealFailureComesFirst(form: map<string, string>, now: int, sealer: StateSealer, handler: Jwk.TokenHandler)
    requires "state" in form && "id_token" in form && sealer.unprotect(form["state"], now).None?
    ensures CallbackPreflight(form, now, sealer, handler) == PreflightRejected(StateNotUnprotected)
  {
  }

  /** Key validation is checked before the state's nullness: a null state with a rejected token reports the token. */
  lemma KeyCheckPrecedesNullState(pre: Preflight, now: int, users: map<int, User>)
    requires pre.PreflightPassed? && pre.state.None?
    ensures CallbackDecision(pre, false, now, users) == Rejected(IdTokenRejected)
    ensures CallbackDecision(pre, true, now, users) == Rejected(StateNull)
  {
  }

  /** With a state that carries a nonce, a token without a nonce claim is refused. */
  lemma AbsentNonceIsRejected(pre: Preflight, now: int, users: map<int, User>)
    requires pre.PreflightPassed? && pre.state.Some? && pre.state.value.nonce.Some?
    requires now <= pre.state.value.validUntilUtc
    requires FirstClaimValue(pre.token.claims, "nonce").None?
    ensures CallbackDecision(pre, true, now, users) == Rejected(NonceMismatch)
  {
  }

  /** An existing account is reused unchanged; a new one is issued only when e-mail and both names are present. */
  lemma AccountChoice(pre: Preflight, now: int, users: map<int, User>)
    requires CallbackDecision(pre, true, now, users).ReuseAccount? || CallbackDecision(pre, true, now, users).IssueAccount?
    ensures var sub := FirstClaimValue(pre.token.claims, "sub").value;
      match CallbackDecision(pre, true, now, users)
      case ReuseAccount(id) => id in users && users[id].azureId == Some(sub)
      case IssueAccount(candidate) =>
        && (forall id :: id in users ==> users[id].azureId != Some(sub))
        && candidate.azureId == Some(sub) && candidate.roleId == Some(DefaultRoleId)
        && !Text.IsNullOrWhiteSpace(FirstClaimValue(pre.token.claims, "email"))
        && !Text.IsNullOrWhiteSpace(FirstClaimValue(pre.token.claims, "given_name"))
        && !Text.IsNullOrWhiteSpace(FirstClaimValue(pre.token.claims, "family_name"))
      case Rejected(_) => false
  {
  }

  /**
    The handshake end to end: a callback within 15 minutes that returns the state sealed by
    RequestLogin, with an id token the key store accepts, is admitted iff the token's nonce
    claim is the nonce that was sent.
   */
  lemma SsoHandshake(
    options: AuthOptions, nonce: int, issued: int, now: int, sealer: StateSealer, handler: Jwk.TokenHandler,
    form: map<string, string>, users: map<int, User>)
    requires 0 <= nonce < IntMax && SealerRoundTrips(sealer)
    requires issued <= now <= issued + StateLifetimeSeconds
    requires "state" in form && "id_token" in form
    requires Some(form["state"]) == QueryValue(RequestLogin(options, nonce, issued, sealer).query, "state")
    requires handler.read(form["id_token"]).Some?
    requires var sub := FirstClaimValue(handler.read(form["id_token"]).value.claims, "sub");
      sub.Some? && !Text.IsNullOrWhiteSpace(sub) && FindByAzureId(users, sub.value).Some?
    ensures var pre := CallbackPreflight(form, now, sealer, handler);
      (CallbackDecision(pre, true, now, users).ReuseAccount? <==>
       FirstClaimValue(handler.read(form["id_token"]).value.claims, "nonce") == Some(Text.DecimalString(nonce)))
  {
    RequestLoginBindsNonce(options, nonce, issued, now, sealer);
  }

  /**
    ProcessLoginCallback: the preflight, then the key store, then the remaining guards; an
    existing account is reused and a missing one created; both token cookies are returned.
    `formatValid` is the Identity validators' verdict on the provisioned account.
   */
  method ProcessLoginCallback(
    db: Store, store: Jwk.AzureJwkStore, form: map<string, string>, now: int, host: string,
    sealer: StateSealer, handler: Jwk.TokenHandler, fetch: Jwk.FetchOutcome, formatValid: bool)
    returns (r: Outcome<seq<AuthCookie>>)
    requires db.Valid()
    modifies db, store
    ensures db.Valid()
    ensures db.roles == old(db.roles) && db.nextRoleId == old(db.nextRoleId)
    ensures var pre := CallbackPreflight(form, now, sealer, handler);
      store.State() == if pre.PreflightPassed? then Jwk.AfterValidation(old(store.State()), now, fetch) else old(store.State())
    ensures var verdict := CallbackVerdictFor(form, now, sealer, handler, old(store.State()), fetch, old(db.users));
      match verdict
      case Rejected(reason) =>
        r == Fail(SsoFailed(reason)) && db.users == old(db.users) && db.nextUserId == old(db.nextUserId)
      case ReuseAccount(id) =>
        r == Ok(LoginCookies(old(db.users)[id], now, host)) && db.users == old(db.users) && db.nextUserId == old(db.nextUserId)
      case IssueAccount(candidate) =>
        if CanCreate(old(db.users), old(db.roles), candidate, formatValid) then
          && r == Ok(LoginCookies(Stored(candidate, old(db.nextUserId)), now, host))
          && db.users == old(db.users)[old(db.nextUserId) := Stored(candidate, old(db.nextUserId))]
        else
          && r == Fail(if CreationRejected(old(db.users), candidate, formatValid) then SsoFailed(AccountNotIssued) else ForeignKeyViolation)
          && db.users == old(db.users) && db.nextUserId == old(db.nextUserId)
  {
    if "state" !in form || "id_token" !in form {
      return Fail(SsoFailed(MissingStateOrIdToken));
    }
    var unprotected := sealer.unprotect(form["state"], now);
    if unprotected.None? {
      return Fail(SsoFailed(StateNotUnprotected));
    }
    var deserializedState := sealer.deserialize(unprotected.value);
    if deserializedState.UnreadableState? {
      return Fail(SsoFailed(StateNotDeserialized));
    }
    var idToken := form["id_token"];
    var token := handler.read(idToken);
    if token.None? {
      return Fail(SsoFailed(IdTokenUnreadable));
    }
    var valid := store.ValidateTokenWithAzureKeys(idToken, now, fetch, handler);
    if !valid {
      return Fail(SsoFailed(IdTokenRejected));
    }
    if deserializedState.NullState? {
      return Fail(SsoFailed(StateNull));
    }
    if deserializedState.state.validUntilUtc < now {
      return Fail(SsoFailed(StateExpired));
    }
    var claims := token.value.claims;
    if FirstClaimValue(claims, "nonce") != deserializedState.state.nonce {
      return Fail(SsoFailed(NonceMismatch));
    }
    var userAzureId := FirstClaimValue(claims, "sub").GetOr("");
    if Text.IsNullOrWhiteSpace(Some(userAzureId)) {
      return Fail(SsoFailed(MissingSub));
    }
    var existing := FindByAzureId(db.users, userAzureId);
    var user: User;
    if existing.Some? {
      user := db.users[existing.value];
    } else {
      var desiredEmail := FirstClaimValue(claims, "email");
      var desiredFirstName := FirstClaimValue(claims, "given_name");
      var desiredFamilyName := FirstClaimValue(claims, "family_name");
      if Text.IsNullOrWhiteSpace(desiredEmail) {
        return Fail(SsoFailed(MissingEmail));
      }
      if Text.IsNullOrWhiteSpace(desiredFirstName) || Text.IsNullOrWhiteSpace(desiredFamilyName) {
        return Fail(SsoFailed(MissingName));
      }
      var candidate := SsoAccount(userAzureId, desiredEmail.value, desiredFirstName.value, desiredFamilyName.value);
      var created := db.CreateUser(candidate, formatValid);
      if created.Fail? {
        return Fail(if created.error == UserCreationFailed then SsoFailed(AccountNotIssued) else created.error);
      }
      user := db.users[created.value];
    }
    r := Ok(LoginCookies(user, now, host));
  }

  // ----- Token refresh -----

  /**
    The application's token handling: `encode` writes and signs a token, `read` parses a token
    string without checking it, `signedByUs` checks the HMAC signature with the JWT secret.
   */
  datatype TokenCodec = TokenCodec(encode: Token -> string, read: string -> Option<Token>, signedByUs: string -> bool)

  ghost predicate CodecRoundTrips(codec: TokenCodec) {
    forall t :: codec.read(codec.encode(t)) == Some(t)
  }

  /** The user id a token names: its first nameid claim, non-blank and parsed as a long. */
  function TokenUserId(token: Token): (id: Option<int>)
    ensures id.Some? ==> FirstClaimValue(token.claims, NameIdClaimType).Some?
  {
    var uId := FirstClaimValue(token.claims, NameIdClaimType);
    if Text.IsNullOrWhiteSpace(uId) then None else Text.TryParseLong(uId.value)
  }

  /** A token written for a user names that user. */
  lemma TokenUserIdOfIssuedToken(user: User, token: Token)
    requires Text.LongMin <= user.id <= Text.LongMax
    requires FirstClaimValue(token.claims, NameIdClaimType) == Some(Text.DecimalString(user.id))
    ensures TokenUserId(token) == Some(user.id)
  {
    Text.ParseDecimalString(user.id);
    DecimalStringIsNotBlank(user.id);
  }

  lemma DecimalStringIsNotBlank(n: int)
    ensures !Text.IsNullOrWhiteSpace(Some(Text.DecimalString(n)))
  {
    var s := Text.DecimalString(n);
    assert s[0] == '-' || Text.IsDigit(s[0]);
    assert !Text.IsWhiteSpace(s[0]);
  }

  /**
    HandleTokenRefresh as written: the token is only parsed, its id looked up, and a fresh
    access cookie (never a refresh cookie) returned.
   */
  function HandleTokenRefresh(users: map<int, User>, refreshToken: string, codec: TokenCodec, now: int, host: string)
    : (r: Outcome<AuthCookie>)
    ensures codec.read(refreshToken).None? ==> r == Fail(RefreshFailed(RefreshTokenUnreadable))
    ensures codec.read(refreshToken).Some? && TokenUserId(codec.read(refreshToken).value).None? ==> r == Fail(RefreshFailed(MissingNameId))
    ensures r.Ok? <==> (codec.read(refreshToken).Some? && TokenUserId(codec.read(refreshToken).value).Some?
      && TokenUserId(codec.read(refreshToken).value).value in users)
    ensures r.Ok? ==> r.value == AccessCookie(users[TokenUserId(codec.read(refreshToken).value).value], now, host)
    ensures r.Ok? ==> r.value.key == AuthTokenCookieName
  {
    var token := codec.read(refreshToken);
    if token.None? then Fail(RefreshFailed(RefreshTokenUnreadable))
    else
      var uid := TokenUserId(token.value);
      if uid.None? then Fail(RefreshFailed(MissingNameId))
      else if uid.value !in users then Fail(RefreshFailed(UnknownUser))
      else Ok(AccessCookie(users[uid.value], now, host))
  }

  /** The refresh a refresh token needs: signature, expiry and the Refresh role checked before the lookup. */
  function HandleVerifiedTokenRefresh(users: map<int, User>, refreshToken: string, codec: TokenCodec, now: int, host: string)
    : (r: Outcome<AuthCookie>)
    ensures r.Ok? ==> codec.signedByUs(refreshToken) && codec.read(refreshToken).Some?
    ensures r.Ok? ==> now < codec.read(refreshToken).value.expires
    ensures r.Ok? ==> Claim(RoleClaimType, RefreshRole) in codec.read(refreshToken).value.claims
    ensures r.Ok? ==> r == HandleTokenRefresh(users, refreshToken, codec, now, host)
  {
    var token := codec.read(refreshToken);
    if token.None? then Fail(RefreshFailed(RefreshTokenUnreadable))
    else if !codec.signedByUs(refreshToken) then Fail(RefreshFailed(RefreshTokenNotVerified))
    else if token.value.expires <= now then Fail(RefreshFailed(RefreshTokenExpired))
    else if Claim(RoleClaimType, RefreshRole) !in token.value.claims then Fail(RefreshFailed(NotARefreshToken))
    else HandleTokenRefresh(users, refreshToken, codec, now, host)
  }

  /**
    As written, an access token, long expired and whatever its signature, is accepted as a
    refresh token; the verified refresh refuses it.
   */
  lemma AccessTokenAcceptedAsRefreshToken(users: map<int, User>, user: User, issued: int, now: int, codec: TokenCodec, host: string)
    requires CodecRoundTrips(codec)
    requires user.id in users && users[user.id] == user && Text.LongMin <= user.id <= Text.LongMax
    requires now >= issued + AuthTokenLifetimeSeconds
    ensures var access := codec.encode(GenerateTokenPair(user, false, issued).authToken);
      && HandleTokenRefresh(users, access, codec, now, host) == Ok(AccessCookie(user, now, host))
      && HandleVerifiedTokenRefresh(users, access, codec, now, host).Fail?
  {
    var token := GenerateTokenPair(user, false, issued).authToken;
    TokenUserIdOfIssuedToken(user, token);
  }

  /** The refresh cookie of a sign-in, presented before it expires and carrying our signature, yields an access cookie for that user. */
  lemma LoginRefreshCookieRefreshes(users: map<int, User>, user: User, issued: int, now: int, codec: TokenCodec, host: string)
    requires CodecRoundTrips(codec)
    requires user.id in users && users[user.id] == user && Text.LongMin <= user.id <= Text.LongMax
    requires var refresh := LoginCookies(user, issued, host)[1].value;
      codec.signedByUs(codec.encode(refresh)) && now < refresh.expires
    ensures HandleVerifiedTokenRefresh(users, codec.encode(LoginCookies(user, issued, host)[1].value), codec, now, host)
      == Ok(AccessCookie(user, now, host))
  {
    var refresh := LoginCookies(user, issued, host)[1].value;
    TokenUserIdOfIssuedToken(user, refresh);
    assert refresh.claims[0] == Claim(RoleClaimType, RefreshRole);
  }

  // ----- Password sign-in and reset -----

  /**
    Login's outcome and the delay it waits first: unknown e-mail, Azure-linked account, wrong
    password and required reset fail in that order, each after the random delay; otherwise the
    two token cookies, at once.
   */
  function LoginOutcome(
    users: map<int, User>, email: string, passwordMatches: bool, now: int, host: string, elapsedMs: nat, jitter: int)
    : (r: (Outcome<seq<AuthCookie>>, int))
    requires 25 <= jitter < 150
    ensures r.0.Fail? ==> r.1 == AuthenticationHelpers.RandomDelay(elapsedMs, jitter)
    ensures r.0.Ok? ==> r.1 == 0
    ensures FindByEmail(users, email).None? ==> r.0 == Fail(IncorrectUsernamePassword)
    ensures r.0.Ok? <==> (FindByEmail(users, email).Some?
      && Text.IsNullOrEmpty(users[FindByEmail(users, email).value].azureId)
      && passwordMatches && !users[FindByEmail(users, email).value].mustResetPassword)
    ensures r.0.Ok? ==> r.0.value == LoginCookies(users[FindByEmail(users, email).value], now, host)
  {
    var found := FindByEmail(users, email);
    var delay := AuthenticationHelpers.RandomDelay(elapsedMs, jitter);
    if found.None? then (Fail(IncorrectUsernamePassword), delay)
    else
      var user := users[found.value];
      if !Text.IsNullOrEmpty(user.azureId) then (Fail(AzureAdLoginWithPass), delay)
      else if !passwordMatches then (Fail(IncorrectUsernamePassword), delay)
      else if user.mustResetPassword then (Fail(MustResetPassword), delay)
      else (Ok(LoginCookies(user, now, host)), 0)
  }

  /** Login: FindByEmail, the Azure test, CheckPassword, the reset flag, then the cookies. */
  method Login(db: Store, email: string, passwordMatches: bool, now: int, host: string, elapsedMs: nat, jitter: int)
    returns (r: Outcome<seq<AuthCookie>>, delayMs: int)
    requires 25 <= jitter < 150
    ensures (r, delayMs) == LoginOutcome(db.users, email, passwordMatches, now, host, elapsedMs, jitter)
  {
    delayMs := 0;
    var found := FindByEmail(db.users, email);
    if found.None? {
      delayMs := AuthenticationHelpers.RandomDelay(elapsedMs, jitter);
      return Fail(IncorrectUsernamePassword), delayMs;
    }
    var user := db.users[found.value];
    if !Text.IsNullOrEmpty(user.azureId) {
      delayMs := AuthenticationHelpers.RandomDelay(elapsedMs, jitter);
      return Fail(AzureAdLoginWithPass), delayMs;
    }
    if !passwordMatches {
      delayMs := AuthenticationHelpers.RandomDelay(elapsedMs, jitter);
      return Fail(IncorrectUsernamePassword), delayMs;
    }
    if user.mustResetPassword {
      delayMs := AuthenticationHelpers.RandomDelay(elapsedMs, jitter);
      return Fail(MustResetPassword), delayMs;
    }
    r := Ok(LoginCookies(user, now, host));
  }

  /**
    An unknown e-mail and a wrong password for a password account fail with the same error, and
    when both lookups finish under the delay floor they answer after the same total time, however
    long each took.
   */
  lemma UnknownEmailLooksLikeWrongPassword(
    users: map<int, User>, unknown: string, known: string, now: int, host: string,
    unknownElapsedMs: nat, knownElapsedMs: nat, jitter: int)
    requires 25 <= jitter < 150
    requires unknownElapsedMs < AuthenticationHelpers.DelayFloorMs && knownElapsedMs < AuthenticationHelpers.DelayFloorMs
    requires FindByEmail(users, unknown).None?
    requires FindByEmail(users, known).Some? && Text.IsNullOrEmpty(users[FindByEmail(users, known).value].azureId)
    ensures LoginOutcome(users, unknown, true, now, host, unknownElapsedMs, jitter).0
      == LoginOutcome(users, known, false, now, host, knownElapsedMs, jitter).0
    ensures unknownElapsedMs + LoginOutcome(users, unknown, true, now, host, unknownElapsedMs, jitter).1
      == knownElapsedMs + LoginOutcome(users, known, false, now, host, knownElapsedMs, jitter).1
  {
    AuthenticationHelpers.DelayHidesElapsedTime(unknownElapsedMs, knownElapsedMs, jitter);
  }

  /** The outcome of UserManager.ResetPasswordAsync. */
  datatype ResetResult = ResetSucceeded | ResetFailed(errors: seq<AuthenticationHelpers.IdentityError>)

  /** The error a failed reset reports: the first Identity error mapped, or the unknown-error mapping when there is none. */
  function ResetFailure(errors: seq<AuthenticationHelpers.IdentityError>): Error {
    AuthenticationHelpers.PasswordResetErrorToException(if errors == [] then None else Some(errors[0]))
  }

  /**
    ResetPassword: the Base64 token must decode (`decodedToken` is None where it does not), the
    user must exist and must not be Azure-linked; success clears MustResetPassword and signs in.
   */
  method ResetPassword(
    db: Store, userId: int, decodedToken: Option<string>, resetResult: ResetResult, now: int, host: string)
    returns (r: Outcome<seq<AuthCookie>>)
    requires db.Valid()
    modifies db
    ensures db.Valid()
    ensures db.roles == old(db.roles) && db.nextUserId == old(db.nextUserId) && db.nextRoleId == old(db.nextRoleId)
    ensures decodedToken.None? ==> r == Fail(MalformedBase64)
    ensures decodedToken.Some? && userId !in old(db.users) ==> r == Fail(UserNotFound(userId))
    ensures decodedToken.Some? && userId in old(db.users) && !Text.IsNullOrEmpty(old(db.users)[userId].azureId)
      ==> r == Fail(AttemptPasswordResetOnAzureAccount)
    ensures (decodedToken.Some? && userId in old(db.users) && Text.IsNullOrEmpty(old(db.users)[userId].azureId)
      && resetResult.ResetFailed?) ==> r == Fail(ResetFailure(resetResult.errors))
    ensures r.Fail? ==> db.users == old(db.users)
    ensures r.Ok? <==> (decodedToken.Some? && userId in old(db.users) && Text.IsNullOrEmpty(old(db.users)[userId].azureId)
      && resetResult.ResetSucceeded?)
    ensures r.Ok? ==>
      && db.users == old(db.users)[userId := old(db.users)[userId].(mustResetPassword := false)]
      && r.value == LoginCookies(db.users[userId], now, host)
  {
    if decodedToken.None? {
      return Fail(MalformedBase64);
    }
    if userId !in db.users {
      return Fail(UserNotFound(userId));
    }
    var user := db.users[userId];
    if !Text.IsNullOrEmpty(user.azureId) {
      return Fail(AttemptPasswordResetOnAzureAccount);
    }
    if resetResult.ResetFailed? {
      return Fail(ResetFailure(resetResult.errors));
    }
    user := user.(mustResetPassword := false);
    db.users := db.users[userId := user];
    r := Ok(LoginCookies(user, now, host));
  }
}
