/** Values shared by every service: optional values, claims, and the errors the services raise. */
module Common {

  datatype Option<+T> = None | Some(value: T) {
    function GetOr(default: T): T {
      if Some? then value else default
    }
  }

  /** A claim of a token or of the request principal: its type and its value. */
  datatype Claim = Claim(claimType: string, value: string)

  /** `claims.FirstOrDefault(x => x.Type == claimType)?.Value`: the value of the first claim of that type. */
  function FirstClaimValue(claims: seq<Claim>, claimType: string): (v: Option<string>)
    ensures v.None? <==> forall i :: 0 <= i < |claims| ==> claims[i].claimType != claimType
    ensures v.Some? ==>
      exists i :: 0 <= i < |claims| && claims[i] == Claim(claimType, v.value)
        && forall j :: 0 <= j < i ==> claims[j].claimType != claimType
  {
    if claims == [] then None
    else if claims[0].claimType == claimType then Some(claims[0].value)
    else
      var rest := FirstClaimValue(claims[1..], claimType);
      assert forall i :: 1 <= i < |claims| ==> claims[i] == claims[1..][i - 1];
      if rest.Some? then
        var k :| 0 <= k < |claims[1..]| && claims[1..][k] == Claim(claimType, rest.value)
          && forall j :: 0 <= j < k ==> claims[1..][j].claimType != claimType;
        assert forall j :: 0 <= j < k + 1 ==> claims[j].claimType != claimType;
        rest
      else
        rest
  }

  /** Why the single-sign-on callback stopped; each is logged separately and thrown as a generic exception. */
  datatype SsoRejection =
    | MissingStateOrIdToken   // the form lacks "state" or "id_token"
    | StateNotUnprotected     // the time-limited protector refused the sealed state
    | StateNotDeserialized    // the unsealed state is not a state record
    | IdTokenUnreadable       // the id token is not a JWT
    | IdTokenRejected         // the key store did not accept the id token
    | StateNull               // the unsealed state is the JSON literal null
    | StateExpired            // ValidUntilUtc lies in the past
    | NonceMismatch           // the token's nonce claim differs from the state's nonce
    | MissingSub              // no usable "sub" claim
    | MissingEmail            // first login, but no usable "email" claim
    | MissingName             // first login, but no usable "given_name" or "family_name" claim
    | AccountNotIssued        // the user manager refused the new account

  /** Why a refresh request was refused. */
  datatype RefreshRejection =
    | RefreshTokenUnreadable  // the presented token is not a JWT
    | MissingNameId           // no numeric "nameid" claim
    | UnknownUser             // no user with that id
    | RefreshTokenNotVerified // the token was not signed with the application's key
    | RefreshTokenExpired     // the token's expiry has passed
    | NotARefreshToken        // the token lacks the "Refresh" role claim

  /** The exceptions of the services, one constructor per exception class. */
  datatype Error =
    | RoleNotFound(roleId: int)
    | UsersStillAssignedToRole(roleId: int)
    | IndexOutOfRange(index: int)             // BitArray.Set outside the array
    | UserNotFound(userId: int)
    | ChangeRoleSelf
    | InvalidEmail
    | UserCreationFailed
    | ForeignKeyViolation                     // the database refused a row whose RoleId names no role
    | IncorrectUsernamePassword
    | AzureAdLoginWithPass
    | MustResetPassword
    | AttemptPasswordResetOnAzureAccount
    | InvalidPassword(reason: string)
    | InvalidPasswordResetToken
    | PasswordResetFailed
    | MalformedBase64                         // Convert.FromBase64String refused the reset token
    | SsoFailed(ssoReason: SsoRejection)
    | RefreshFailed(refreshReason: RefreshRejection)

  /** The result of an operation: its value, or the exception it throws. */
  datatype Outcome<+T> = Ok(value: T) | Fail(error: Error)
}
