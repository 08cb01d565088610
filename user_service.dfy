/**
  UserService: user details, profile and role updates, administrator-created accounts, and
  the password-reset requests that must not reveal whether an account exists.
 */
module UserService {
  import opened Common
  import Text
  import opened Data
  import AuthenticationHelpers
  import AppAuthenticationService

  /** A row of the user list: a missing e-mail reads as "". */
  datatype UserListEntry = UserListEntry(id: int, displayName: string, email: string)

  /** QuickListAsync: one entry per user, listed by ascending id (the query sets no order). */
  function QuickList(users: map<int, User>): (r: seq<UserListEntry>)
    ensures forall i, j :: 0 <= i < j < |r| ==> r[i].id < r[j].id
    ensures forall i :: 0 <= i < |r| ==>
      r[i].id in users && r[i].displayName == users[r[i].id].displayName && r[i].email == users[r[i].id].email.GetOr("")
    ensures forall id :: id in users ==> exists i :: 0 <= i < |r| && r[i].id == id
  {
    var ids := SortedIds(users.Keys);
    var list := seq(|ids|, i requires 0 <= i < |ids| =>
      UserListEntry(ids[i], users[ids[i]].displayName, users[ids[i]].email.GetOr("")));
    assert forall id :: id in users ==> exists i :: 0 <= i < |ids| && ids[i] == id && list[i].id == id;
    list
  }

  /** The detailed user view: a missing role reads as -1 and a missing e-mail as "". */
  datatype UserDetails = UserDetails(id: int, displayName: string, roleId: int, email: string)

  /** GetAsync: the user's details, or UserNotFound. */
  function GetUser(users: map<int, User>, id: int): (r: Outcome<UserDetails>)
    ensures r.Fail? <==> id !in users
    ensures r.Fail? ==> r.error == UserNotFound(id)
    ensures r.Ok? ==> r.value.displayName == users[id].displayName
    ensures r.Ok? ==> (users[id].roleId.Some? ==> r.value.roleId == users[id].roleId.value)
    ensures r.Ok? ==> (users[id].roleId.None? ==> r.value.roleId == -1)
    ensures r.Ok? ==> r.value.email == users[id].email.GetOr("")
  {
    if id !in users then Fail(UserNotFound(id))
    else
      var u := users[id];
      Ok(UserDetails(id, u.displayName, if u.roleId.Some? then u.roleId.value else -1, u.email.GetOr("")))
  }

  /** A user's details name that user, as long as ids are the table keys. */
  lemma GetUserReportsStoredId(users: map<int, User>, id: int)
    requires id in users && users[id].id == id
    ensures GetUser(users, id).Ok? && GetUser(users, id).value.id == users[id].id
  {
  }

  /** The user after an update: the requested role if any, the display name only when a non-empty one is given. */
  function Updated(user: User, roleId: Option<int>, displayName: Option<string>): User {
    user.(
      roleId := if roleId.Some? then roleId else user.roleId,
      displayName := if !Text.IsNullOrEmpty(displayName) then displayName.value else user.displayName)
  }

  /** The request would change the caller's own role. */
  predicate ChangesOwnRole(user: User, currentUserId: int, roleId: Option<int>) {
    roleId.Some? && user.id == currentUserId && user.roleId != roleId
  }

  /**
    UpdateAsync: the target is `id`, or the caller when absent. A role change must not be the
    caller's own and must name an existing role; a non-empty display name replaces the old one.
    A refused update changes nothing.
   */
  method UpdateAsync(db: Store, currentUserId: int, id: Option<int>, roleId: Option<int>, displayName: Option<string>)
    returns (r: Outcome<()>)
    requires db.Valid()
    modifies db
    ensures db.Valid()
    ensures db.roles == old(db.roles) && db.nextUserId == old(db.nextUserId) && db.nextRoleId == old(db.nextRoleId)
    ensures r.Fail? ==> db.users == old(db.users)
    ensures var userId := id.GetOr(currentUserId);
      && (userId !in old(db.users) ==> r == Fail(UserNotFound(userId)))
      && (userId in old(db.users) && ChangesOwnRole(old(db.users)[userId], currentUserId, roleId) ==> r == Fail(ChangeRoleSelf))
      && ((userId in old(db.users) && !ChangesOwnRole(old(db.users)[userId], currentUserId, roleId)
           && roleId.Some? && roleId.value !in old(db.roles)) ==> r == Fail(RoleNotFound(roleId.value)))
      && (r.Ok? <==> (userId in old(db.users) && !ChangesOwnRole(old(db.users)[userId], currentUserId, roleId)
                      && (roleId.None? || roleId.value in old(db.roles))))
      && (r.Ok? ==> db.users == old(db.users)[userId := Updated(old(db.users)[userId], roleId, displayName)])
  {
    var userId := id.GetOr(currentUserId);
    if userId !in db.users {
      return Fail(UserNotFound(userId));
    }
    var user := db.users[userId];
    if roleId.Some? {
      if user.id == currentUserId && user.roleId != roleId {
        return Fail(ChangeRoleSelf);
      }
      if roleId.value !in db.roles {
        return Fail(RoleNotFound(roleId.value));
      }
      user := user.(roleId := roleId);
    }
    if !Text.IsNullOrEmpty(displayName) {
      user := user.(displayName := displayName.value);
    }
    db.users := db.users[userId := user];
    r := Ok(());
  }

  /**
    The account CreateAsync asks the user manager for: the requested name as display name, a
    generated user name, the e-mail and role given, and a password to be set on first sign-in.
   */
  function NewAccount(displayName: string, email: string, roleId: int, generatedUserName: string): (u: User)
    ensures u.displayName == displayName && u.userName == generatedUserName
    ensures u.email == Some(email) && u.roleId == Some(roleId)
    ensures u.azureId.None? && u.mustResetPassword
  {
    User(0, generatedUserName, Text.ToUpperInvariant(generatedUserName), Some(email), None, displayName, None, Some(roleId), true)
  }

  /**
    CreateAsync: the e-mail must parse as an address (`emailValid`), the role must exist, and
    the user manager must accept the account (`formatValid` is its validators' verdict on the
    generated user name and the e-mail).
   */
  method CreateAsync(
    db: Store, userName: string, email: string, emailValid: bool, roleId: int, generatedUserName: string, formatValid: bool)
    returns (r: Outcome<()>)
    requires db.Valid()
    modifies db
    ensures db.Valid()
    ensures db.roles == old(db.roles) && db.nextRoleId == old(db.nextRoleId)
    ensures r.Fail? ==> db.users == old(db.users) && db.nextUserId == old(db.nextUserId)
    ensures !emailValid ==> r == Fail(InvalidEmail)
    ensures emailValid && roleId !in old(db.roles) ==> r == Fail(RoleNotFound(roleId))
    ensures var account := NewAccount(userName, email, roleId, generatedUserName);
      && (emailValid && roleId in old(db.roles) && CreationRejected(old(db.users), account, formatValid) ==> r == Fail(UserCreationFailed))
      && (r.Ok? <==> emailValid && roleId in old(db.roles) && !CreationRejected(old(db.users), account, formatValid))
      && (r.Ok? ==> db.users == old(db.users)[old(db.nextUserId) := Stored(account, old(db.nextUserId))])
  {
    if !emailValid {
      return Fail(InvalidEmail);
    }
    if roleId !in db.roles {
      return Fail(RoleNotFound(roleId));
    }
    var account := NewAccount(userName, email, roleId, generatedUserName);
    var created := db.CreateUser(account, formatValid);
    if created.Fail? {
      return Fail(UserCreationFailed);
    }
    r := Ok(());
  }

  /**
    An account an administrator creates cannot sign in with a password: whatever the password,
    Login refuses it until the password has been reset.
   */
  lemma CreatedAccountMustResetFirst(
    users: map<int, User>, id: int, displayName: string, email: string, roleId: int, generatedUserName: string,
    passwordMatches: bool, now: int, host: string, elapsedMs: nat, jitter: int)
    requires 25 <= jitter < 150
    requires forall k :: k in users && k != id ==> users[k].normalizedEmail != Some(Text.ToUpperInvariant(email))
    ensures var account := Stored(NewAccount(displayName, email, roleId, generatedUserName), id);
      AppAuthenticationService.LoginOutcome(users[id := account], email, passwordMatches, now, host, elapsedMs, jitter).0.Fail?
  {
    var after := users[id := Stored(NewAccount(displayName, email, roleId, generatedUserName), id)];
    assert after[id].normalizedEmail == Some(Text.ToUpperInvariant(email));
    var found := FindByEmail(after, email);
    assert found == Some(id);
  }

  /** The outcome of a request together with the delay it waited, in milliseconds. */
  datatype Timed = Timed(outcome: Outcome<()>, delayMs: int)

  /** ResetPassword(User): Azure-linked accounts (any Azure id, even an empty one) cannot reset a password. */
  function ResetPasswordFor(user: User): (r: Outcome<()>)
    ensures r.Fail? <==> user.azureId.Some?
    ensures r.Fail? ==> r.error == AttemptPasswordResetOnAzureAccount
  {
    if user.azureId.Some? then Fail(AttemptPasswordResetOnAzureAccount) else Ok(())
  }

  /**
    RequestResetPassword by id: the delay runs before the lookup, so it is measured over no
    work; an unknown id answers like a successful request.
   */
  function RequestResetPasswordById(users: map<int, User>, userId: int, jitter: int): (r: Timed)
    requires 25 <= jitter < 150
    ensures AuthenticationHelpers.DelayFloorMs + 25 <= r.delayMs < AuthenticationHelpers.DelayFloorMs + 150
    ensures userId !in users ==> r.outcome == Ok(())
    ensures userId in users ==> r.outcome == ResetPasswordFor(users[userId])
  {
    var delay := AuthenticationHelpers.RandomDelay(0, jitter);
    if userId !in users then Timed(Ok(()), delay) else Timed(ResetPasswordFor(users[userId]), delay)
  }

  /**
    RequestResetPassword by e-mail: the lookup by normalized e-mail runs first and `elapsedMs`
    is its duration; an unknown e-mail answers like a successful request.
   */
  function RequestResetPasswordByEmail(users: map<int, User>, email: string, elapsedMs: nat, jitter: int): (r: Timed)
    requires 25 <= jitter < 150
    ensures r.delayMs == AuthenticationHelpers.RandomDelay(elapsedMs, jitter)
    ensures FindByEmail(users, email).None? ==> r.outcome == Ok(())
    ensures FindByEmail(users, email).Some? ==> r.outcome == ResetPasswordFor(users[FindByEmail(users, email).value])
  {
    var found := FindByEmail(users, email);
    var delay := AuthenticationHelpers.RandomDelay(elapsedMs, jitter);
    if found.None? then Timed(Ok(()), delay) else Timed(ResetPasswordFor(users[found.value]), delay)
  }

  /**
    An unknown e-mail and a password account's e-mail get the same answer, and when both
    lookups finish under the delay floor the answer comes after the same total time.
   */
  lemma UnknownEmailLooksLikePasswordAccount(
    users: map<int, User>, unknown: string, known: string, unknownElapsedMs: nat, knownElapsedMs: nat, jitter: int)
    requires 25 <= jitter < 150
    requires unknownElapsedMs < AuthenticationHelpers.DelayFloorMs && knownElapsedMs < AuthenticationHelpers.DelayFloorMs
    requires FindByEmail(users, unknown).None?
    requires FindByEmail(users, known).Some? && users[FindByEmail(users, known).value].azureId.None?
    ensures RequestResetPasswordByEmail(users, unknown, unknownElapsedMs, jitter).outcome
      == RequestResetPasswordByEmail(users, known, knownElapsedMs, jitter).outcome
    ensures unknownElapsedMs + RequestResetPasswordByEmail(users, unknown, unknownElapsedMs, jitter).delayMs
      == knownElapsedMs + RequestResetPasswordByEmail(users, known, knownElapsedMs, jitter).delayMs
  {
    AuthenticationHelpers.DelayHidesElapsedTime(unknownElapsedMs, knownElapsedMs, jitter);
  }

  /** An unknown id and a password account's id answer identically. */
  lemma UnknownIdLooksLikePasswordAccount(users: map<int, User>, unknown: int, known: int, jitter: int)
    requires 25 <= jitter < 150
    requires unknown !in users && known in users && users[known].azureId.None?
    ensures RequestResetPasswordById(users, unknown, jitter) == RequestResetPasswordById(users, known, jitter)
  {
  }

  /** Azure-linked accounts are told apart from unknown ones: the request for them fails. */
  lemma AzureAccountIsDistinguishable(users: map<int, User>, unknown: int, azure: int, jitter: int)
    requires 25 <= jitter < 150
    requires unknown !in users && azure in users && users[azure].azureId.Some?
    ensures RequestResetPasswordById(users, unknown, jitter).outcome != RequestResetPasswordById(users, azure, jitter).outcome
  {
  }

  /**
    The two Azure tests disagree on an empty Azure id: sign-in with a password and the password
    reset treat the account as a password account, while a reset request refuses it as an
    Azure account.
   */
  lemma EmptyAzureIdIsBothKinds(user: User)
    requires user.azureId == Some("")
    ensures Text.IsNullOrEmpty(user.azureId)
    ensures ResetPasswordFor(user) == Fail(AttemptPasswordResetOnAzureAccount)
  {
  }
}
