/**
  AuthenticationHelpers: the mapping from an Identity password-reset error to the exception
  the API reports, and the random delay that evens out the timing of failed sign-ins.
 */
module AuthenticationHelpers {
  import opened Common

  /** An IdentityError; its Code may be null. */
  datatype IdentityError = IdentityError(code: Option<string>)

  /** The password-policy codes reported as an invalid password, spelled as the switch spells them. */
  const PasswordPolicyCodes: set<string> := {
    "PasswordToShort", "PasswordRequiresDigit", "PasswordRequiresLower",
    "PasswordRequiresUpper", "PasswordRequiresNonAlphanumeric", "PasswordRequiresUniqueChars"
  }

  /** The code that marks a bad reset token. */
  const InvalidTokenCode := "InvalidToken"

  /** Delays start only below this many elapsed milliseconds. */
  const DelayFloorMs := 250

  /** PasswordResetErrorToException: a total mapping from an optional error to the reported error. */
  function PasswordResetErrorToException(error: Option<IdentityError>): (e: Error)
    ensures e.InvalidPassword? <==> error.Some? && error.value.code.Some? && error.value.code.value in PasswordPolicyCodes
    ensures e.InvalidPassword? ==> e.reason == error.value.code.value
    ensures e == InvalidPasswordResetToken <==> error.Some? && error.value.code == Some(InvalidTokenCode)
    ensures e.InvalidPassword? || e == InvalidPasswordResetToken || e == PasswordResetFailed
  {
    if error.None? || error.value.code.None? then PasswordResetFailed
    else
      var code := error.value.code.value;
      if code in PasswordPolicyCodes then InvalidPassword(code)
      else if code == InvalidTokenCode then InvalidPasswordResetToken
      else PasswordResetFailed
  }

  /** Codes are compared literally: Identity's own "PasswordTooShort" is not in the list. */
  lemma PasswordTooShortFallsThrough()
    ensures PasswordResetErrorToException(Some(IdentityError(Some("PasswordTooShort")))) == PasswordResetFailed
  {
    assert "PasswordTooShort" != "PasswordToShort";
    assert "PasswordTooShort" !in PasswordPolicyCodes;
  }

  /**
    RandomDelayAsync: the extra wait in milliseconds after `elapsedMs` of work, where `jitter`
    is the draw from Random.Next(25, 150).
   */
  function RandomDelay(elapsedMs: nat, jitter: int): (delayMs: int)
    requires 25 <= jitter < 150
    ensures elapsedMs < DelayFloorMs ==> DelayFloorMs + 25 <= elapsedMs + delayMs < DelayFloorMs + 150
    ensures elapsedMs >= DelayFloorMs ==> delayMs == 0
    ensures delayMs >= 0
  {
    if elapsedMs < DelayFloorMs then DelayFloorMs - elapsedMs + jitter else 0
  }

  /**
    Work that finishes under the floor is hidden: whatever it took, the answer comes after the
    same total time for the same draw.
   */
  lemma DelayHidesElapsedTime(elapsedMs: nat, otherElapsedMs: nat, jitter: int)
    requires 25 <= jitter < 150
    requires elapsedMs < DelayFloorMs && otherElapsedMs < DelayFloorMs
    ensures elapsedMs + RandomDelay(elapsedMs, jitter) == otherElapsedMs + RandomDelay(otherElapsedMs, jitter)
  {
  }

  /** With the delay added, a failed attempt never answers in under 250 ms. */
  lemma FailureTakesAtLeastTheFloor(elapsedMs: nat, jitter: int)
    requires 25 <= jitter < 150
    ensures elapsedMs + RandomDelay(elapsedMs, jitter) >= DelayFloorMs
  {
  }
}
