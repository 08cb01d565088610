/**
  The entities of the user store: Role (an authorization role with its permission bitmap)
  and User (an Identity user with an optional Azure AD link and an optional role), and the
  Store class standing for the database context together with the Identity user manager's
  CreateAsync.
 */
module Data {
  import opened Common
  import Text
  import BitArrayExtensions

  /** An authorization role. Its Users list is not stored: it is AssignedUsers over the user table. */
  datatype Role = Role(id: int, name: string, permissionBitmap: seq<bool>)

  /** A role name has between 1 and 256 characters. */
  predicate ValidRoleName(name: string) {
    1 <= |name| <= 256
  }

  /** A role as constructed: every one of its 256 permission bits is clear. */
  function NewRole(id: int, name: string): (r: Role)
    ensures r.id == id && r.name == name
    ensures |r.permissionBitmap| == BitArrayExtensions.RoleBitmapWidth
    ensures forall i :: 0 <= i < |r.permissionBitmap| ==> !r.permissionBitmap[i]
  {
    Role(id, name, BitArrayExtensions.Falses(BitArrayExtensions.RoleBitmapWidth))
  }

  /** An Identity user; None stands for a null column. */
  datatype User = User(
    id: int,
    userName: string,
    normalizedUserName: string,
    email: Option<string>,
    normalizedEmail: Option<string>,
    displayName: string,
    azureId: Option<string>,
    roleId: Option<int>,
    mustResetPassword: bool)

  /** The ids of the stored users that satisfy `p`: a `Where` over the user table. */
  function UsersWhere(users: map<int, User>, p: User -> bool): (s: set<int>)
    ensures forall id :: id in s <==> id in users && p(users[id])
  {
    set id | id in users && p(users[id])
  }

  /** The ids of the users whose RoleId is `roleId`: the role's Users navigation. */
  function AssignedUsers(users: map<int, User>, roleId: int): (s: set<int>)
    ensures forall id :: id in s <==> id in users && users[id].roleId == Some(roleId)
  {
    UsersWhere(users, (u: User) => u.roleId == Some(roleId))
  }

  /** `m` is the smallest element of `s`. */
  predicate IsLeast(m: int, s: set<int>) {
    m in s && forall y :: y in s ==> m <= y
  }

  lemma LeastOfRest(x: int, m: int, s: set<int>)
    requires x in s && IsLeast(m, s - {x})
    ensures IsLeast(if x < m then x else m, s)
  {
    var least := if x < m then x else m;
    forall y | y in s
      ensures least <= y
    {
      if y != x {
        assert y in s - {x};
      }
    }
  }

  /** Every finite set of integers that holds some x has a least element. */
  lemma {:induction false} LeastExists(s: set<int>, x: int)
    requires x in s
    ensures exists m :: IsLeast(m, s)
    decreases |s|
  {
    if y :| y in s && y != x {
      assert |s - {x}| < |s|;
      LeastExists(s - {x}, y);
      var m :| IsLeast(m, s - {x});
      LeastOfRest(x, m, s);
    } else {
      assert IsLeast(x, s);
    }
  }

  /** The least element of a set that has one. */
  function Least(s: set<int>): (m: int)
    requires exists x :: x in s
    ensures IsLeast(m, s)
  {
    var x :| x in s;
    LeastExists(s, x);
    var m :| IsLeast(m, s);
    m
  }

  /** The elements of `s` in ascending order. */
  function SortedIds(s: set<int>): (r: seq<int>)
    ensures forall i, j :: 0 <= i < j < |r| ==> r[i] < r[j]
    ensures forall k :: k in s <==> k in r
    decreases |s|
  {
    if exists x :: x in s then
      var m := Least(s);
      var rest := SortedIds(s - {m});
      [m] + rest
    else
      []
  }

  /**
    The first row satisfying a lookup, taken here as the one with the least id. Where the
    lookup is on a unique column it is the only row.
   */
  function FirstByLeastId(ids: set<int>): (r: Option<int>)
    ensures r.None? <==> ids == {}
    ensures r.Some? ==> IsLeast(r.value, ids)
  {
    if exists x :: x in ids then Some(Least(ids)) else None
  }

  /** FindByEmailAsync and the NormalizedEmail lookups: the user whose normalized e-mail is upper(email). */
  function FindByEmail(users: map<int, User>, email: string): (r: Option<int>)
    ensures r.None? <==> forall id :: id in users ==> users[id].normalizedEmail != Some(Text.ToUpperInvariant(email))
    ensures r.Some? ==> r.value in users && users[r.value].normalizedEmail == Some(Text.ToUpperInvariant(email))
  {
    var normalized := Text.ToUpperInvariant(email);
    var ids := UsersWhere(users, (u: User) => u.normalizedEmail == Some(normalized));
    var first := FirstByLeastId(ids);
    if first.None? then
      assert forall id :: id in users ==> id !in ids;
      None
    else
      first
  }

  /** The user linked to an Azure AD subject, if any. */
  function FindByAzureId(users: map<int, User>, sub: string): (r: Option<int>)
    ensures r.None? <==> forall id :: id in users ==> users[id].azureId != Some(sub)
    ensures r.Some? ==> r.value in users && users[r.value].azureId == Some(sub)
  {
    var ids := UsersWhere(users, (u: User) => u.azureId == Some(sub));
    var first := FirstByLeastId(ids);
    if first.None? then
      assert forall id :: id in users ==> id !in ids;
      None
    else
      first
  }

  /** The store behind the services: the user and role tables and their identity sequences. */
  class Store {
    var users: map<int, User>
    var roles: map<int, Role>
    var nextUserId: int
    var nextRoleId: int

    /** Keys match ids, ids come from the sequences, role rows are well formed, RoleId is a foreign key and e-mails and user names are unique. */
    ghost predicate Valid()
      reads this
    {
      && (forall id :: id in users ==> users[id].id == id && id < nextUserId)
      && (forall id :: id in roles ==> roles[id].id == id && id < nextRoleId)
      && (forall id :: id in roles ==>
            |roles[id].permissionBitmap| == BitArrayExtensions.RoleBitmapWidth && ValidRoleName(roles[id].name))
      && (forall id :: id in users && users[id].roleId.Some? ==> users[id].roleId.value in roles)
      && (forall a, b ::
            a in users && b in users && users[a].normalizedEmail.Some? && users[a].normalizedEmail == users[b].normalizedEmail
            ==> a == b)
      && (forall a, b ::
            a in users && b in users && users[a].normalizedUserName == users[b].normalizedUserName
            ==> a == b)
    }

    constructor()
      ensures Valid()
      ensures users == map[] && roles == map[] && nextUserId == 1 && nextRoleId == 1
    {
      users := map[];
      roles := map[];
      nextUserId := 1;
      nextRoleId := 1;
    }

    /**
      UserManager.CreateAsync with unique e-mails required. `formatValid` is the outcome of the
      user-name character and e-mail syntax validators. A blank or taken e-mail, a blank or
      taken user name or a failed validator is a failed IdentityResult; a RoleId naming no role
      fails at the database with a foreign-key violation. Otherwise the user is inserted under
      the next id, with upper-cased normalized user name and e-mail.
     */
    method CreateUser(candidate: User, formatValid: bool) returns (r: Outcome<int>)
      requires Valid()
      modifies this
      ensures Valid()
      ensures roles == old(roles) && nextRoleId == old(nextRoleId)
      ensures r.Fail? ==> users == old(users) && nextUserId == old(nextUserId)
      ensures r.Fail? <==> !CanCreate(old(users), old(roles), candidate, formatValid)
      ensures r.Fail? ==> r.error == (if CreationRejected(old(users), candidate, formatValid) then UserCreationFailed else ForeignKeyViolation)
      ensures r.Ok? ==>
        r.value == old(nextUserId) && nextUserId == old(nextUserId) + 1
        && users == old(users)[r.value := Stored(candidate, r.value)]
    {
      if CreationRejected(users, candidate, formatValid) {
        return Fail(UserCreationFailed);
      }
      if candidate.roleId.Some? && candidate.roleId.value !in roles {
        return Fail(ForeignKeyViolation);
      }
      var id := nextUserId;
      var stored := Stored(candidate, id);
      users := users[id := stored];
      nextUserId := nextUserId + 1;
      r := Ok(id);
    }
  }

  /** The row CreateUser inserts for `candidate` under `id`. */
  function Stored(candidate: User, id: int): (u: User)
    ensures u.id == id && u.normalizedUserName == Text.ToUpperInvariant(candidate.userName)
    ensures u.email == candidate.email && u.roleId == candidate.roleId
    ensures candidate.email.Some? ==> u.normalizedEmail == Some(Text.ToUpperInvariant(candidate.email.value))
  {
    candidate.(
      id := id,
      normalizedUserName := Text.ToUpperInvariant(candidate.userName),
      normalizedEmail := if candidate.email.Some? then Some(Text.ToUpperInvariant(candidate.email.value)) else None)
  }

  /** The Identity validators' verdict on a new user. */
  predicate CreationRejected(users: map<int, User>, candidate: User, formatValid: bool) {
    || !formatValid
    || Text.IsNullOrWhiteSpace(Some(candidate.userName))
    || Text.IsNullOrWhiteSpace(candidate.email)
    || (exists id :: id in users && users[id].normalizedUserName == Text.ToUpperInvariant(candidate.userName))
    || (exists id :: id in users && users[id].normalizedEmail == Some(Text.ToUpperInvariant(candidate.email.value)))
  }

  predicate CanCreate(users: map<int, User>, roles: map<int, Role>, candidate: User, formatValid: bool) {
    !CreationRejected(users, candidate, formatValid)
      && (candidate.roleId.None? || candidate.roleId.value in roles)
  }
}
