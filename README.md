# poise authentication and authorization, modelled in Dafny

This project models the authentication and authorization layer of poise, a time-tracking
web API. It covers the following parts:

- **Permissions and roles.** Each role holds a 256-bit permission bitmap. Each permission
  is a fixed bit index. The bitmap is written as a '0'/'1' string. The permission check
  compares the role's bitmap with a mask of the requested bits, as `(P & C) = C`. Roles
  can be listed, read, created, renamed, deleted and have single bits toggled.
- **The `[Authorize]` action filter.** It runs a fixed chain: 401 without an auth cookie,
  401 without a numeric user id, 403 when the permission check fails, otherwise the action.
- **The Azure AD signing-key cache.** It refreshes after an hour or when it holds no keys.
  It fetches at most once every five minutes, selects a key by `kid` (section 4.5 of
  RFC 7517) and reports every failure as `false`.
- **Azure AD single sign-on.** The authorize redirect carries a nonce, and the same nonce is
  sealed into the state. The form-post callback is an ordered rejection chain. It includes
  the nonce binding of section 3.2.2.11 of OpenID Connect Core 1.0. It ends by reusing or
  provisioning an account.
- **The application's own tokens and cookies.** An access token and a refresh token, whose
  expiries are capped at 2038-01-19, carried by two cookies. A token refresh issues only a
  new access cookie.
- **Password accounts.** Sign-in, password reset and reset requests, with fixed outcome
  orders and a randomised delay on failures. Also user update and creation.

Modules follow the source files:

| module | source file |
|---|---|
| `BitArrayExtensions` | `ToBitArrayString` and `ToBitArray` |
| `Permissions` | the permission codes |
| `Data` | the `Role` and `User` rows, plus the `Store` class (the user and role tables with their id sequences, and the user manager's `CreateAsync`) |
| `RoleService` | `RoleService.cs` |
| `AuthorizeAttribute` | `AuthorizeAttribute.cs` |
| `Jwk` | `AzureJwkStore.cs` |
| `AuthenticationHelpers` | `AuthenticationHelpers.cs` |
| `AppAuthenticationService` | `AppAuthenticationService.cs` |
| `UserService` | `UserService.cs` |

Two support modules sit beside them:

- `Common` holds the option and outcome types, claims, and one error type that gathers the
  source's exception classes.
- `Text` holds the .NET string rules the source relies on: white space, invariant case
  mapping, and `long.TryParse` and `long.ToString`.

Conventions:

- Time is whole Unix seconds. Delays are whole milliseconds.
- The clock, the nonce draw and the delay jitter are parameters.
- The following are function-valued fields of records, never interpreted:
  - token reading, signing and validation;
  - sealing the SSO state (the time-limited data protector);
  - JSON (de)serialization.
- Where a lemma needs such a function to behave, it says so in its `requires`, e.g.
  "unsealing undoes sealing before expiry" (`SealerRoundTrips`).
- An exception becomes a `Fail` outcome or a rejection reason.

## Model

| member | source | states |
|---|---|---|
| Common.FirstClaimValue | poise.solution/poise.services/Authentication/AppAuthenticationService.cs:131 | the value of the first claim of a type, with no claim of that type before it; None iff no claim has that type |
| Text.TryParseLong | poise.solution/poise.services/Roles/AuthorizeAttribute.cs:95 | a parsed value always lies in the 64-bit signed range |
| Text.DigitsRoundTrip | poise.solution/poise.services/Roles/AuthorizeAttribute.cs:95 | the digits written for n read back as n |
| Text.ParseDecimalString | poise.solution/poise.services/Roles/AuthorizeAttribute.cs:95 | `long.TryParse` reads back every long written by `ToString`, negatives included |
| Text.NoneIsNotALong | poise.solution/poise.services/Roles/AuthorizeAttribute.cs:95 | the default "none" never parses, so a missing claim gives no id |
| BitArrayExtensions.BitString | poise.solution/poise.services/Roles/Extensions/BitArrayExtensions.cs:11-14 | one character per bit, in index order: '1' for a set bit, '0' otherwise |
| BitArrayExtensions.ToBitArrayString | poise.solution/poise.services/Roles/Extensions/BitArrayExtensions.cs:8-17 | the string built by the loop is BitString of the array's contents |
| BitArrayExtensions.BitStringIsBitString | poise.solution/poise.services/Roles/Extensions/BitArrayExtensions.cs:13 | the output alphabet is {'0','1'} |
| BitArrayExtensions.DecodeIntoWidth | poise.solution/poise.services/Roles/Extensions/BitArrayExtensions.cs:19-28 | a fresh array of exactly `width` bits, bit i set iff s[i] == '1'; None (Set out of range) iff the string is longer than the width |
| BitArrayExtensions.ToBitArray | poise.solution/poise.services/Roles/Extensions/BitArrayExtensions.cs:19-28 | as written: always 100 bits; strings over 100 characters fail |
| BitArrayExtensions.ToRoleBitmap | poise.solution/poise.services/Roles/Extensions/BitArrayExtensions.cs:19-28 | corrected: the same decoding at the 256-bit role width |
| BitArrayExtensions.DecodeEncode | poise.solution/poise.services/Roles/Extensions/BitArrayExtensions.cs:8-28 | decoding an encoded array gives the array followed by cleared bits up to the width |
| BitArrayExtensions.EncodeDecode | poise.solution/poise.services/Roles/Extensions/BitArrayExtensions.cs:8-28 | encoding a decoded '0'/'1' string gives the string followed by '0's up to the width |
| BitArrayExtensions.ExactWidthRoundTrip | poise.solution/poise.services/Roles/Extensions/BitArrayExtensions.cs:8-28 | at the array's own width, decoding undoes encoding exactly |
| BitArrayExtensions.ReadBackRoleBitmap | poise.solution/poise.services/Roles/Extensions/BitArrayExtensions.cs:8-28 | writing any 256-bit role bitmap as a string and reading it back with ToBitArray always fails |
| Permissions.Code | poise.solution/poise.services/Roles/Permissions.cs:3-38 | every code is in 10..73 with last digit 0..3 |
| Permissions.FromCode | poise.solution/poise.services/Roles/Permissions.cs:3-38 | inverts Code; None exactly for integers no permission has |
| Permissions.CodeIsMaskIndex | poise.solution/poise.services/Roles/Permissions.cs:5-37 | every code is a valid index of the 256-bit mask; bits 0-9 are unused |
| Permissions.CodeRoundTrip | poise.solution/poise.services/Roles/Permissions.cs:5-37 | FromCode(Code(p)) == p |
| Permissions.CodesDistinct | poise.solution/poise.services/Roles/Permissions.cs:5-37 | two permissions share a code iff they are the same permission |
| Permissions.DecadeLayout | poise.solution/poise.services/Roles/Permissions.cs:5-37 | each resource owns one decade with Read at x0; the User group has Update at 31 and Create at 32 |
| Permissions.UserGroupHasNoDelete | poise.solution/poise.services/Roles/Permissions.cs:15-17 | no User permission is a Delete; code 33 is unassigned |
| Data.NewRole | poise.solution/poise.data/Users/Role.cs:13 | a new role's bitmap has 256 bits, all clear |
| Data.AssignedUsers | poise.solution/poise.data/Users/Role.cs:15 | exactly the users whose RoleId is the role |
| Data.SortedIds | poise.solution/poise.services/Roles/RoleService.cs:56 | ascending order, same elements as the set |
| Data.FindByEmail | poise.solution/poise.services/Authentication/AppAuthenticationService.cs:339 | a user whose normalized e-mail is the upper-cased input, and None iff there is none |
| Data.FindByAzureId | poise.solution/poise.services/Authentication/AppAuthenticationService.cs:149 | a user whose Azure id is the subject, and None iff there is none |
| Data.Stored | poise.solution/poise.services/Authentication/AppAuthenticationService.cs:173-182 | the inserted row has the new id, upper-cased normalized user name and normalized e-mail |
| Data.Store.CreateUser | poise.solution/poise.services/Authentication/AppAuthenticationService.cs:184 | fails, changing nothing, iff the validators reject or the role is missing; otherwise inserts the row under the next id; keeps ids, foreign keys and unique e-mails and user names |
| RoleService.RequiredMask | poise.solution/poise.services/Roles/RoleService.cs:23-27 | the mask has 256 bits |
| RoleService.FitToWidth | poise.solution/poise.services/Roles/RoleService.cs:29 | the `::bit(256)` cast: 256 bits, the stored ones then cleared padding |
| RoleService.RoleOf | poise.solution/poise.services/Roles/RoleService.cs:30-31 | the user's role exists iff the user exists, has a RoleId and the role row exists (the JOIN) |
| RoleService.MaskTestIsSubsetTest | poise.solution/poise.services/Roles/RoleService.cs:29 | `(P & C) = C` holds iff the role grants every requested permission |
| RoleService.IsUserAuthorizedForAction | poise.solution/poise.services/Roles/RoleService.cs:21-47 | the loop-built mask, sent as a string and cast, grants access iff the user has a role granting every requested permission; no role row means false |
| RoleService.FewerPermissionsStillAuthorized | poise.solution/poise.services/Roles/RoleService.cs:23-29 | dropping requested permissions never turns allow into deny |
| RoleService.EmptyRequestNeedsOnlyARole | poise.solution/poise.services/Roles/RoleService.cs:23-46 | an empty request admits exactly the users joined to a role |
| RoleService.NewRoleGrantsNothing | poise.solution/poise.data/Users/Role.cs:13 | a fresh role authorizes only the empty request |
| RoleService.SetPermissionBit | poise.solution/poise.services/Roles/RoleService.cs:133-150 | RoleNotFound for an unknown role, IndexOutOfRange for a bad bit; otherwise only that bit of that role changes |
| RoleService.SetPermissionBitIdempotent | poise.solution/poise.services/Roles/RoleService.cs:145-147 | setting the same bit again changes nothing |
| RoleService.EnabledPermissionAuthorizes | poise.solution/poise.services/Roles/RoleService.cs:145-147 | enabling a permission's bit admits the role's users to it |
| RoleService.DisabledPermissionDenies | poise.solution/poise.services/Roles/RoleService.cs:145-147 | disabling a permission's bit denies it to the role's users |
| RoleService.UpdatePermission | poise.solution/poise.services/Roles/RoleService.cs:133-150 | the cloned, modified array replaces the bitmap exactly as SetPermissionBit says; users untouched; store stays valid |
| RoleService.DeleteRole | poise.solution/poise.services/Roles/RoleService.cs:113-131 | RoleNotFound, then UsersStillAssignedToRole, with the role kept; otherwise exactly that role is removed |
| RoleService.RenameRole | poise.solution/poise.services/Roles/RoleService.cs:96-111 | RoleNotFound for an unknown role; otherwise only the name changes |
| RoleService.CreateRole | poise.solution/poise.services/Roles/RoleService.cs:84-94 | a new role under the next id with the name given and no permissions |
| RoleService.QuickList | poise.solution/poise.services/Roles/RoleService.cs:49-58 | every role exactly once, in ascending id order, with its name |
| RoleService.GetRole | poise.solution/poise.services/Roles/RoleService.cs:60-82 | RoleNotFound iff no such role; the bitmap is the stored bitmap written as ToBitArrayString writes it, and decodes back to it; the user list holds each assigned user once, with its stored display name |
| AuthorizeAttribute.CookieValue | poise.solution/poise.services/Roles/AuthorizeAttribute.cs:24 | the cookie's value iff the cookie is present |
| AuthorizeAttribute.GetUserId | poise.solution/poise.services/Roles/AuthorizeAttribute.cs:93-98 | an id iff a name-identifier claim exists and its first value parses as a long |
| AuthorizeAttribute.GetUserIdReadsWrittenId | poise.solution/poise.services/Roles/AuthorizeAttribute.cs:93-98 | a claim holding the decimal form of a long yields that long |
| AuthorizeAttribute.InboundClaims | poise.solution/poise.services/Authentication/AppAuthenticationService.cs:273 | the bearer handler maps "nameid" to the name-identifier claim type and keeps values |
| AuthorizeAttribute.IssuedAccessTokenIdentifiesUser | poise.solution/poise.services/Authentication/AppAuthenticationService.cs:271-274 | the access cookie a sign-in sets names its user for the filter |
| AuthorizeAttribute.FilterDecision | poise.solution/poise.services/Roles/AuthorizeAttribute.cs:22-91 | a 403 is only ever a refused permission check for a parsed id; every response is one of the three |
| AuthorizeAttribute.OnActionExecution | poise.solution/poise.services/Roles/AuthorizeAttribute.cs:22-91 | the early-return chain makes exactly FilterDecision's choice |
| AuthorizeAttribute.GuardChain | poise.solution/poise.services/Roles/AuthorizeAttribute.cs:24-90 | 401 without cookie, then 401 without id, then 403; the action runs iff all three pass |
| AuthorizeAttribute.UnauthenticatedBeforeForbidden | poise.solution/poise.services/Roles/AuthorizeAttribute.cs:24-66 | both 401s are given without consulting the store |
| Jwk.RefreshCondition | poise.solution/poise.services/Authentication/Jwk/AzureJwkStore.cs:34-35 | refresh iff older than an hour or no keys; an exception iff a document with a null key list is within the hour |
| Jwk.Refreshed | poise.solution/poise.services/Authentication/Jwk/AzureJwkStore.cs:80-87 | no fetch within 300 s; a failed fetch changes nothing; a successful one replaces the keys and sets the time |
| Jwk.AfterValidation | poise.solution/poise.services/Authentication/Jwk/AzureJwkStore.cs:34-38 | the cache is unchanged or replaced by a successful fetch |
| Jwk.ValidationResult | poise.solution/poise.services/Authentication/Jwk/AzureJwkStore.cs:28-69 | true only if the key set holds the token's kid, validation succeeds and now is before ValidTo |
| Jwk.AzureJwkStore.RefreshJwks | poise.solution/poise.services/Authentication/Jwk/AzureJwkStore.cs:71-96 | fetches only after 300 s; on a failed fetch the fields are unchanged |
| Jwk.AzureJwkStore.ValidateTokenWithAzureKeys | poise.solution/poise.services/Authentication/Jwk/AzureJwkStore.cs:28-69 | the new cache and the result are AfterValidation and ValidationResult |
| Jwk.FirstValidationRefreshes | poise.solution/poise.services/Authentication/Jwk/AzureJwkStore.cs:25-38 | the initial empty cache dated MinValue triggers a refresh and a fetch |
| Jwk.FailedFetchLeavesCacheUnchanged | poise.solution/poise.services/Authentication/Jwk/AzureJwkStore.cs:82-87 | a throwing fetch leaves keys and time as they were, and the call answers false |
| Jwk.UnknownKidFailsClosed | poise.solution/poise.services/Authentication/Jwk/AzureJwkStore.cs:42-61 | no key with the token's kid means false |
| Jwk.InvalidTokenFailsClosed | poise.solution/poise.services/Authentication/Jwk/AzureJwkStore.cs:63-66 | unreadable or invalid tokens give false |
| Jwk.AcceptedTokenIsUnexpired | poise.solution/poise.services/Authentication/Jwk/AzureJwkStore.cs:45-56 | an accepted token validated against the cached keys and has not expired |
| Jwk.CacheChangesOnlyOnFetch | poise.solution/poise.services/Authentication/Jwk/AzureJwkStore.cs:80-87 | the cache changes only on a successful fetch more than 300 s after the last |
| Jwk.SuccessfulFetchesAreSpaced | poise.solution/poise.services/Authentication/Jwk/AzureJwkStore.cs:80 | over any call sequence, successful fetches are more than 300 s apart |
| Jwk.FailedFetchIsRetried | poise.solution/poise.services/Authentication/Jwk/AzureJwkStore.cs:82-87 | a failed fetch leaves the next call due to fetch again |
| AuthenticationHelpers.PasswordResetErrorToException | poise.solution/poise.services/Utils/Helper/AuthenticationHelpers.cs:11-25 | six policy codes map to InvalidPassword with the code, InvalidToken to InvalidPasswordResetToken, anything else or null to PasswordResetFailed |
| AuthenticationHelpers.PasswordTooShortFallsThrough | poise.solution/poise.services/Utils/Helper/AuthenticationHelpers.cs:16 | "PasswordTooShort" does not match the literal "PasswordToShort" |
| AuthenticationHelpers.RandomDelay | poise.solution/poise.services/Utils/Helper/AuthenticationHelpers.cs:27-36 | under 250 ms of work the total is 275..399 ms; otherwise no delay |
| AuthenticationHelpers.DelayHidesElapsedTime | poise.solution/poise.services/Utils/Helper/AuthenticationHelpers.cs:31-34 | for the same draw, any two amounts of work under 250 ms end at the same total time |
| AuthenticationHelpers.FailureTakesAtLeastTheFloor | poise.solution/poise.services/Utils/Helper/AuthenticationHelpers.cs:31-34 | work plus delay is never under 250 ms |
| AppAuthenticationService.GenerateTokenPair | poise.solution/poise.services/Authentication/AppAuthenticationService.cs:265-313 | the access token carries only the user's nameid and expires at min(now + 1 h, 2038-01-19); a refresh token exists iff requested, adds Role Refresh and expires at min(now + 7 d, cap) |
| AppAuthenticationService.GetDefaultCookieOptions | poise.solution/poise.services/Authentication/AppAuthenticationService.cs:315-333 | always Secure, HttpOnly, SameSite=Strict, essential, host domain; refresh path only for the refresh cookie; Expires iff given |
| AppAuthenticationService.LoginCookies | poise.solution/poise.services/Authentication/AppAuthenticationService.cs:423-442 | the access cookie, then the refresh cookie with the Refresh role, refresh path and 7-day expiry |
| AppAuthenticationService.CookiesOutliveNoToken | poise.solution/poise.services/Authentication/AppAuthenticationService.cs:281-329 | no cookie expires before its token, and the refresh cookie expires with its token before the cap |
| AppAuthenticationService.QueryValueAt | poise.solution/poise.services/Authentication/AppAuthenticationService.cs:69-92 | a query parameter is found at its first occurrence |
| AppAuthenticationService.RequestLogin | poise.solution/poise.services/Authentication/AppAuthenticationService.cs:60-95 | an id_token form_post request to the tenant carrying the nonce, and the state sealed for 15 minutes around that nonce |
| AppAuthenticationService.RequestLoginBindsNonce | poise.solution/poise.services/Authentication/AppAuthenticationService.cs:63-90 | within 15 minutes the sealed state unseals to a state whose nonce is the query's nonce |
| AppAuthenticationService.CallbackPreflight | poise.solution/poise.services/Authentication/AppAuthenticationService.cs:99-110 | passes only with both fields, an unsealed and deserialized state and a readable token |
| AppAuthenticationService.SsoAccount | poise.solution/poise.services/Authentication/AppAuthenticationService.cs:173-182 | user name and Azure id are the subject, role 1, display name lower(given[0] + "." + family), normalized e-mail upper-cased |
| AppAuthenticationService.AcceptedCallbackPassedAllGuards | poise.solution/poise.services/Authentication/AppAuthenticationService.cs:112-147 | an admitted callback had valid keys, a live non-null state, an equal nonce and a non-blank subject |
| AppAuthenticationService.UnsealFailureComesFirst | poise.solution/poise.services/Authentication/AppAuthenticationService.cs:107-108 | an unsealable state is refused before the token is read or validated |
| AppAuthenticationService.KeyCheckPrecedesNullState | poise.solution/poise.services/Authentication/AppAuthenticationService.cs:112-123 | a null state with a rejected token reports the token |
| AppAuthenticationService.AbsentNonceIsRejected | poise.solution/poise.services/Authentication/AppAuthenticationService.cs:131-137 | a token without a nonce claim fails against a state with a nonce |
| AppAuthenticationService.AccountChoice | poise.solution/poise.services/Authentication/AppAuthenticationService.cs:149-182 | an existing Azure account is reused; a new one needs e-mail, given and family name and gets role 1 |
| AppAuthenticationService.SsoHandshake | poise.solution/poise.services/Authentication/AppAuthenticationService.cs:60-149 | a callback returning the sealed state within 15 minutes is admitted iff the token's nonce is the nonce sent |
| AppAuthenticationService.ProcessLoginCallback | poise.solution/poise.services/Authentication/AppAuthenticationService.cs:96-211 | the chain in source order; the key store is consulted only after the preflight; refusals change nothing; an account is reused or created, then both cookies issued |
| AppAuthenticationService.TokenUserId | poise.solution/poise.services/Authentication/AppAuthenticationService.cs:218-219 | an id only from a present nameid claim |
| AppAuthenticationService.TokenUserIdOfIssuedToken | poise.solution/poise.services/Authentication/AppAuthenticationService.cs:218-219 | a token written for a user names that user |
| AppAuthenticationService.HandleTokenRefresh | poise.solution/poise.services/Authentication/AppAuthenticationService.cs:213-243 | as written: succeeds iff the token parses, names an id and the user exists; returns only an access cookie for that user |
| AppAuthenticationService.HandleVerifiedTokenRefresh | poise.solution/poise.services/Authentication/AppAuthenticationService.cs:213-243 | corrected: succeeds only for a token we signed, unexpired and carrying the Refresh role |
| AppAuthenticationService.AccessTokenAcceptedAsRefreshToken | poise.solution/poise.services/Authentication/AppAuthenticationService.cs:215-226 | as written, an expired access token of any signature is accepted; the corrected refresh refuses it |
| AppAuthenticationService.LoginRefreshCookieRefreshes | poise.solution/poise.services/Authentication/AppAuthenticationService.cs:213-243 | the corrected refresh accepts the refresh cookie a sign-in set, until it expires |
| AppAuthenticationService.LoginOutcome | poise.solution/poise.services/Authentication/AppAuthenticationService.cs:334-381 | unknown e-mail, Azure account, wrong password, reset required, in that order, each delayed; otherwise both cookies at once |
| AppAuthenticationService.Login | poise.solution/poise.services/Authentication/AppAuthenticationService.cs:334-381 | the guard chain computes LoginOutcome |
| AppAuthenticationService.UnknownEmailLooksLikeWrongPassword | poise.solution/poise.services/Authentication/AppAuthenticationService.cs:339-368 | an unknown e-mail and a wrong password fail with the same error; when both lookups take under 250 ms, the answers come after the same total time |
| AppAuthenticationService.ResetPassword | poise.solution/poise.services/Authentication/AppAuthenticationService.cs:384-421 | MalformedBase64, UserNotFound, the Azure error, then the mapped first error; only success clears MustResetPassword and signs in |
| UserService.QuickList | poise.solution/poise.services/Users/UserService.cs:35-43 | every user once with display name and e-mail ("" for none) |
| UserService.GetUser | poise.solution/poise.services/Users/UserService.cs:45-62 | UserNotFound iff unknown; RoleId -1 and e-mail "" stand for null |
| UserService.GetUserReportsStoredId | poise.solution/poise.services/Users/UserService.cs:50 | the details carry the user's id |
| UserService.UpdateAsync | poise.solution/poise.services/Users/UserService.cs:64-94 | target is id or the caller; UserNotFound, ChangeRoleSelf, RoleNotFound in order and changing nothing; otherwise role and non-empty display name set |
| UserService.NewAccount | poise.solution/poise.services/Users/UserService.cs:106-115 | display name is the requested name, user name generated, must reset password, no Azure id |
| UserService.CreateAsync | poise.solution/poise.services/Users/UserService.cs:96-129 | InvalidEmail, RoleNotFound, UserCreationFailed in order, changing nothing; otherwise the account is inserted under the next id |
| UserService.CreatedAccountMustResetFirst | poise.solution/poise.services/Users/UserService.cs:114 | a created account cannot sign in with a password before a reset |
| UserService.ResetPasswordFor | poise.solution/poise.services/Users/UserService.cs:167-178 | fails with the Azure error iff the Azure id is non-null |
| UserService.RequestResetPasswordById | poise.solution/poise.services/Users/UserService.cs:131-147 | delay before lookup of 275..399 ms; unknown id answers Ok |
| UserService.RequestResetPasswordByEmail | poise.solution/poise.services/Users/UserService.cs:149-165 | lookup by upper-cased e-mail then delay; unknown e-mail answers Ok |
| UserService.UnknownEmailLooksLikePasswordAccount | poise.solution/poise.services/Users/UserService.cs:154-163 | an unknown e-mail and a password account get the same answer; when both lookups take under 250 ms, the answers come after the same total time |
| UserService.UnknownIdLooksLikePasswordAccount | poise.solution/poise.services/Users/UserService.cs:136-146 | an unknown id and a password account answer identically |
| UserService.AzureAccountIsDistinguishable | poise.solution/poise.services/Users/UserService.cs:169-173 | a reset request for an Azure account fails where an unknown one succeeds |
| UserService.EmptyAzureIdIsBothKinds | poise.solution/poise.services/Users/UserService.cs:169 | an empty Azure id is a password account for sign-in and reset but an Azure account for reset requests |

## Left out

- The refresh-key semaphore and its 30-second wait, and concurrent callers: refreshes are
  sequential.
- HTTP: the key endpoint fetch is an input outcome, and the request host is a parameter.
- Logging.
- URL encoding of the authorize query: the query is a list of name/value pairs.
- JSON serialization of the state and the key set: an uninterpreted function.
- HMAC-SHA256 signing, JWT parsing and validation, and the data protector: uninterpreted
  functions in records.
- Base64 decoding of the reset token: ResetPassword takes the decoded result, with None for
  a malformed token.
- `MailAddress` parsing: CreateAsync takes `emailValid`.
- Identity's user-name and e-mail validators: `formatValid` inputs.
- Password hashing and checking, and reset-token generation and checking: inputs.
- Sub-second time: the clock is whole seconds, delays whole milliseconds. The stopwatch
  reading is a parameter. RequestResetPassword by id waits on a stopwatch that has measured
  nothing, modelled as 0 ms.
- Non-ASCII case mapping: `ToUpperInvariant`/`ToLowerInvariant` are modelled on ASCII
  letters only. Culture-specific `ToUpper` is taken to agree with the invariant mapping.
- Row order of unordered queries: `FirstOrDefault` over users by Azure id picks the
  least id, and a role's user list is in ascending id order.
- Data annotations enforced by model binding: role names of 1 to 256 characters are a
  precondition of CreateRole and RenameRole. Display-name lengths are not checked.
- The issuer and audience of the application's tokens are opaque strings. Whether they
  agree with the bearer handler's configuration is not modelled.
- The JWT library's own checks when it writes a token. Its handler stamps "not before" with
  the issue time. It refuses a token whose expiry is not after that, which happens for every
  token issued at or after the 2038-01-19 cap. GenerateTokenPair still returns a pair there,
  so the model does not capture that sign-in, callback, reset and refresh all fail from the
  cap on.
- Strings are sequences of Unicode scalar values, not UTF-16 code units. The two differ on
  characters outside the Basic Multilingual Plane. This affects the first letters of the
  given and family names that make a new SSO account's display name, and the 1 to 256
  character bound on role names.
- `GetSelf` is not part of this model.
- The bearer authentication handler that turns the cookie into a principal is not part of
  this model. OnActionExecution takes the principal's claims as a parameter.
- Teams in the user request models are ignored, as the services ignore them.

## Findings

| source | as written | input that shows it | evidently intended | confidence | as-written member | corrected member |
|---|---|---|---|---|---|---|
| poise.solution/poise.services/Roles/Extensions/BitArrayExtensions.cs:21 | ToBitArray always allocates 100 bits | the 256-character string of any role bitmap: Set(100, ...) is out of range | decode at the bitmap's own width (256 for roles), so string and bitmap round-trip | not executed | BitArrayExtensions.ToBitArray, BitArrayExtensions.ReadBackRoleBitmap | BitArrayExtensions.ToRoleBitmap, BitArrayExtensions.ExactWidthRoundTrip |
| poise.solution/poise.services/Authentication/AppAuthenticationService.cs:215-219 | the refresh token is only read, never validated: no signature, expiry or Refresh-role check | an expired access token, or any unsigned token with a nameid claim, presented as the refresh cookie | accept only a token signed with the JWT secret, unexpired, carrying the Refresh role | not executed | AppAuthenticationService.HandleTokenRefresh, AppAuthenticationService.AccessTokenAcceptedAsRefreshToken | AppAuthenticationService.HandleVerifiedTokenRefresh, AppAuthenticationService.LoginRefreshCookieRefreshes |
