/**
  RoleService: the permission check every guarded endpoint runs, and the role table's
  list, read, create, rename, delete and permission-toggle operations.
 */
module RoleService {
  import opened Common
  import opened Permissions
  import opened Data
  import BitArrayExtensions

  const MaskWidth := 256

  /** Bit i of the required mask is set iff some requested permission has code i. */
  function RequiredMask(permissions: seq<Permission>): (mask: seq<bool>)
    ensures |mask| == MaskWidth
  {
    seq(MaskWidth, i => exists k :: 0 <= k < |permissions| && Code(permissions[k]) == i)
  }

  /** A stored bitmap cast to bit(256): cut down to 256 bits, or padded with cleared bits. */
  function FitToWidth(bits: seq<bool>, width: nat): (r: seq<bool>)
    ensures |r| == width
    ensures forall i :: 0 <= i < width ==> r[i] == (i < |bits| && bits[i])
  {
    seq(width, i => 0 <= i < |bits| && bits[i])
  }

  /** Bitwise and of two bit strings of one length. */
  function BitAnd(a: seq<bool>, b: seq<bool>): (r: seq<bool>)
    requires |a| == |b|
    ensures |r| == |a|
  {
    seq(|a|, i requires 0 <= i < |a| => a[i] && b[i])
  }

  /** The SQL test (P & C) = C on two bit(256) values. */
  predicate MaskSatisfied(stored: seq<bool>, check: seq<bool>)
    requires |stored| == |check|
  {
    BitAnd(stored, check) == check
  }

  /** A role grants a permission iff the permission's bit is set in its bitmap. */
  predicate HasPermission(role: Role, p: Permission) {
    Code(p) < |role.permissionBitmap| && role.permissionBitmap[Code(p)]
  }

  /** The role a user is joined to, if the user exists, has a RoleId and that role exists. */
  function RoleOf(users: map<int, User>, roles: map<int, Role>, userId: int): (r: Option<Role>)
    ensures r.Some? <==> userId in users && users[userId].roleId.Some? && users[userId].roleId.value in roles
    ensures r.Some? ==> r.value == roles[users[userId].roleId.value]
  {
    if userId in users && users[userId].roleId.Some? && users[userId].roleId.value in roles then
      Some(roles[users[userId].roleId.value])
    else
      None
  }

  /** The decision the check should make: the user's role grants every requested permission. */
  predicate Authorized(users: map<int, User>, roles: map<int, Role>, userId: int, permissions: seq<Permission>) {
    var role := RoleOf(users, roles, userId);
    role.Some? && forall k :: 0 <= k < |permissions| ==> HasPermission(role.value, permissions[k])
  }

  /** The bitwise test is the subset test: every bit set in the mask is set in the role's bitmap. */
  lemma MaskTestIsSubsetTest(bitmap: seq<bool>, permissions: seq<Permission>)
    ensures MaskSatisfied(FitToWidth(bitmap, MaskWidth), RequiredMask(permissions))
        <==> forall k :: 0 <= k < |permissions| ==> HasPermission(Role(0, "", bitmap), permissions[k])
  {
    var stored := FitToWidth(bitmap, MaskWidth);
    var mask := RequiredMask(permissions);
    if MaskSatisfied(stored, mask) {
      forall k | 0 <= k < |permissions|
        ensures HasPermission(Role(0, "", bitmap), permissions[k])
      {
        var c := Code(permissions[k]);
        assert mask[c];
        assert BitAnd(stored, mask)[c] == mask[c];
      }
    } else {
      var conj := BitAnd(stored, mask);
      assert exists i :: 0 <= i < MaskWidth && conj[i] != mask[i];
      var i :| 0 <= i < MaskWidth && conj[i] != mask[i];
      var k :| 0 <= k < |permissions| && Code(permissions[k]) == i;
      assert !HasPermission(Role(0, "", bitmap), permissions[k]);
    }
  }

  /**
    IsUserAuthorizedForActionAsync: sets the bit of each requested permission in a 256-bit
    mask, sends the mask as a '0'/'1' string, and lets the database join the user to its role
    and compare (bitmap & mask) with mask. No joined row means false.
   */
  method IsUserAuthorizedForAction(db: Store, userId: int, permissions: seq<Permission>) returns (allowed: bool)
    ensures allowed == Authorized(db.users, db.roles, userId, permissions)
  {
    var bitCheck := new bool[MaskWidth](i => false);
    for k := 0 to |permissions|
      invariant forall i :: 0 <= i < MaskWidth ==>
        bitCheck[i] == exists j :: 0 <= j < k && Code(permissions[j]) == i
    {
      bitCheck[Code(permissions[k])] := true;
    }
    assert bitCheck[..] == RequiredMask(permissions);
    var parameter := BitArrayExtensions.ToBitArrayString(bitCheck);
    BitArrayExtensions.ExactWidthRoundTrip(bitCheck[..]);
    var check := BitArrayExtensions.DecodeBits(parameter, MaskWidth);
    var role := RoleOf(db.users, db.roles, userId);
    if role.Some? {
      MaskTestIsSubsetTest(role.value.permissionBitmap, permissions);
      allowed := MaskSatisfied(FitToWidth(role.value.permissionBitmap, MaskWidth), check);
    } else {
      allowed := false;
    }
  }

  /** Requiring fewer permissions never turns an allow into a deny. */
  lemma FewerPermissionsStillAuthorized(
    users: map<int, User>, roles: map<int, Role>, userId: int, permissions: seq<Permission>, fewer: seq<Permission>)
    requires forall k :: 0 <= k < |fewer| ==> fewer[k] in permissions
    requires Authorized(users, roles, userId, permissions)
    ensures Authorized(users, roles, userId, fewer)
  {
    var role := RoleOf(users, roles, userId).value;
    forall k | 0 <= k < |fewer|
      ensures HasPermission(role, fewer[k])
    {
      var j :| 0 <= j < |permissions| && permissions[j] == fewer[k];
    }
  }

  /** An empty permission list admits exactly the users joined to a role. */
  lemma EmptyRequestNeedsOnlyARole(users: map<int, User>, roles: map<int, Role>, userId: int)
    ensures Authorized(users, roles, userId, [])
        <==> userId in users && users[userId].roleId.Some? && users[userId].roleId.value in roles
  {
  }

  /** A new role grants nothing, so its users pass only the empty request. */
  lemma NewRoleGrantsNothing(users: map<int, User>, roles: map<int, Role>, userId: int, permissions: seq<Permission>)
    requires RoleOf(users, roles, userId).Some?
    requires RoleOf(users, roles, userId).value.permissionBitmap == NewRole(0, "").permissionBitmap
    ensures Authorized(users, roles, userId, permissions) <==> permissions == []
  {
    if permissions != [] {
      assert !HasPermission(RoleOf(users, roles, userId).value, permissions[0]);
    }
  }

  /** The result of a role operation that returns nothing. */
  type Unit = ()

  /** UpdatePermission on the role table: the role must exist and PermissionId must index its bitmap. */
  function SetPermissionBit(roles: map<int, Role>, roleId: int, permissionId: int, enabled: bool): (r: Outcome<map<int, Role>>)
    ensures roleId !in roles ==> r == Fail(RoleNotFound(roleId))
    ensures roleId in roles && !(0 <= permissionId < |roles[roleId].permissionBitmap|) ==> r == Fail(IndexOutOfRange(permissionId))
    ensures r.Ok? ==>
      roleId in roles && r.value.Keys == roles.Keys
      && (forall id :: id in roles && id != roleId ==> r.value[id] == roles[id])
      && r.value[roleId].id == roles[roleId].id && r.value[roleId].name == roles[roleId].name
      && |r.value[roleId].permissionBitmap| == |roles[roleId].permissionBitmap|
      && r.value[roleId].permissionBitmap[permissionId] == enabled
      && (forall i :: 0 <= i < |roles[roleId].permissionBitmap| && i != permissionId ==>
            r.value[roleId].permissionBitmap[i] == roles[roleId].permissionBitmap[i])
  {
    if roleId !in roles then Fail(RoleNotFound(roleId))
    else if !(0 <= permissionId < |roles[roleId].permissionBitmap|) then Fail(IndexOutOfRange(permissionId))
    else
      var role := roles[roleId];
      Ok(roles[roleId := role.(permissionBitmap := role.permissionBitmap[permissionId := enabled])])
  }

  /** Setting the same bit twice is the same as setting it once. */
  lemma SetPermissionBitIdempotent(roles: map<int, Role>, roleId: int, permissionId: int, enabled: bool)
    requires SetPermissionBit(roles, roleId, permissionId, enabled).Ok?
    ensures var once := SetPermissionBit(roles, roleId, permissionId, enabled).value;
      SetPermissionBit(once, roleId, permissionId, enabled) == Ok(once)
  {
    var once := SetPermissionBit(roles, roleId, permissionId, enabled).value;
    var role := once[roleId];
    assert role.permissionBitmap[permissionId := enabled] == role.permissionBitmap;
    assert once[roleId := role.(permissionBitmap := role.permissionBitmap[permissionId := enabled])] == once;
  }

  /** Enabling a permission's bit admits every user of that role to that permission. */
  lemma EnabledPermissionAuthorizes(users: map<int, User>, roles: map<int, Role>, userId: int, p: Permission)
    requires RoleOf(users, roles, userId).Some?
    requires SetPermissionBit(roles, users[userId].roleId.value, Code(p), true).Ok?
    ensures Authorized(users, SetPermissionBit(roles, users[userId].roleId.value, Code(p), true).value, userId, [p])
  {
    var after := SetPermissionBit(roles, users[userId].roleId.value, Code(p), true).value;
    assert HasPermission(RoleOf(users, after, userId).value, p);
  }

  /** Disabling a permission's bit denies it to every user of that role. */
  lemma DisabledPermissionDenies(users: map<int, User>, roles: map<int, Role>, userId: int, p: Permission)
    requires RoleOf(users, roles, userId).Some?
    requires SetPermissionBit(roles, users[userId].roleId.value, Code(p), false).Ok?
    ensures !Authorized(users, SetPermissionBit(roles, users[userId].roleId.value, Code(p), false).value, userId, [p])
  {
    var roleId := users[userId].roleId.value;
    var after := SetPermissionBit(roles, roleId, Code(p), false).value;
    assert RoleOf(users, after, userId) == Some(after[roleId]);
    assert !after[roleId].permissionBitmap[Code(p)];
    assert !HasPermission(after[roleId], [p][0]);
  }

  /** UpdatePermission: clones the role's bitmap, sets one bit and stores the clone. */
  method UpdatePermission(db: Store, roleId: int, permissionId: int, enabled: bool) returns (r: Outcome<Unit>)
    requires db.Valid()
    modifies db
    ensures db.Valid()
    ensures db.users == old(db.users) && db.nextUserId == old(db.nextUserId) && db.nextRoleId == old(db.nextRoleId)
    ensures var expected := SetPermissionBit(old(db.roles), roleId, permissionId, enabled);
      if expected.Ok? then r.Ok? && db.roles == expected.value
      else r == Fail(expected.error) && db.roles == old(db.roles)
  {
    if roleId !in db.roles {
      return Fail(RoleNotFound(roleId));
    }
    var role := db.roles[roleId];
    var startArray := new bool[|role.permissionBitmap|](i requires 0 <= i < |role.permissionBitmap| => role.permissionBitmap[i]);
    if !(0 <= permissionId < startArray.Length) {
      return Fail(IndexOutOfRange(permissionId));
    }
    startArray[permissionId] := enabled;
    assert startArray[..] == role.permissionBitmap[permissionId := enabled];
    db.roles := db.roles[roleId := role.(permissionBitmap := startArray[..])];
    r := Ok(());
  }

  /** DeleteAsync: an unknown role and a role that still has users are both refused. */
  method DeleteRole(db: Store, roleId: int) returns (r: Outcome<Unit>)
    requires db.Valid()
    modifies db
    ensures db.Valid()
    ensures db.users == old(db.users) && db.nextUserId == old(db.nextUserId) && db.nextRoleId == old(db.nextRoleId)
    ensures roleId !in old(db.roles) ==> r == Fail(RoleNotFound(roleId))
    ensures roleId in old(db.roles) && AssignedUsers(old(db.users), roleId) != {} ==> r == Fail(UsersStillAssignedToRole(roleId))
    ensures r.Fail? ==> db.roles == old(db.roles)
    ensures r.Ok? <==> roleId in old(db.roles) && AssignedUsers(old(db.users), roleId) == {}
    ensures r.Ok? ==> db.roles == old(db.roles) - {roleId}
  {
    if roleId !in db.roles {
      return Fail(RoleNotFound(roleId));
    }
    if AssignedUsers(db.users, roleId) != {} {
      return Fail(UsersStillAssignedToRole(roleId));
    }
    db.roles := db.roles - {roleId};
    r := Ok(());
  }

  /** Update: renames an existing role and changes nothing else. */
  method RenameRole(db: Store, roleId: int, name: string) returns (r: Outcome<Unit>)
    requires db.Valid() && ValidRoleName(name)
    modifies db
    ensures db.Valid()
    ensures db.users == old(db.users) && db.nextUserId == old(db.nextUserId) && db.nextRoleId == old(db.nextRoleId)
    ensures r.Fail? <==> roleId !in old(db.roles)
    ensures r.Fail? ==> r.error == RoleNotFound(roleId) && db.roles == old(db.roles)
    ensures r.Ok? ==> db.roles == old(db.roles)[roleId := old(db.roles)[roleId].(name := name)]
  {
    if roleId !in db.roles {
      return Fail(RoleNotFound(roleId));
    }
    db.roles := db.roles[roleId := db.roles[roleId].(name := name)];
    r := Ok(());
  }

  /** CreateAsync: adds a role with the given name, every permission bit clear, under the next id. */
  method CreateRole(db: Store, name: string) returns (id: int)
    requires db.Valid() && ValidRoleName(name)
    modifies db
    ensures db.Valid()
    ensures db.users == old(db.users) && db.nextUserId == old(db.nextUserId)
    ensures id == old(db.nextRoleId) && id !in old(db.roles) && db.nextRoleId == id + 1
    ensures db.roles == old(db.roles)[id := NewRole(id, name)]
  {
    id := db.nextRoleId;
    db.roles := db.roles[id := NewRole(id, name)];
    db.nextRoleId := id + 1;
  }

  /** The Id and Name of a role, as QuickListAsync returns them. */
  datatype RoleSummary = RoleSummary(id: int, name: string)

  /** QuickListAsync: every role once, in ascending id order. */
  function QuickList(roles: map<int, Role>): (r: seq<RoleSummary>)
    ensures forall i, j :: 0 <= i < j < |r| ==> r[i].id < r[j].id
    ensures forall i :: 0 <= i < |r| ==> r[i].id in roles && r[i].name == roles[r[i].id].name
    ensures forall id :: id in roles ==> exists i :: 0 <= i < |r| && r[i].id == id
  {
    var ids := SortedIds(roles.Keys);
    var list := seq(|ids|, i requires 0 <= i < |ids| => RoleSummary(ids[i], roles[ids[i]].name));
    assert forall id :: id in roles ==> exists i :: 0 <= i < |ids| && ids[i] == id && list[i].id == id;
    list
  }

  /** The Id and DisplayName of a user, as a role's detail lists them. */
  datatype UserSummary = UserSummary(id: int, displayName: string)

  datatype RoleDetails = RoleDetails(id: int, name: string, permissionBitmap: string, users: seq<UserSummary>)

  /** GetAsync: the role with its bitmap written as a '0'/'1' string and its assigned users. */
  function GetRole(users: map<int, User>, roles: map<int, Role>, roleId: int): (r: Outcome<RoleDetails>)
    ensures r.Fail? <==> roleId !in roles
    ensures r.Fail? ==> r.error == RoleNotFound(roleId)
    ensures r.Ok? ==>
      r.value.id == roleId && r.value.name == roles[roleId].name
      && r.value.permissionBitmap == BitArrayExtensions.BitString(roles[roleId].permissionBitmap)
      && BitArrayExtensions.DecodeBits(r.value.permissionBitmap, |roles[roleId].permissionBitmap|) == roles[roleId].permissionBitmap
    // every assigned user appears exactly once (in ascending id order), with the display name stored for it
    ensures r.Ok? ==>
      (forall i :: 0 <= i < |r.value.users| ==>
        r.value.users[i].id in AssignedUsers(users, roleId)
        && r.value.users[i].displayName == users[r.value.users[i].id].displayName)
      && (forall id :: id in AssignedUsers(users, roleId) ==> exists i :: 0 <= i < |r.value.users| && r.value.users[i].id == id)
      && (forall i, j :: 0 <= i < j < |r.value.users| ==> r.value.users[i].id < r.value.users[j].id)
  {
    if roleId !in roles then Fail(RoleNotFound(roleId))
    else
      var role := roles[roleId];
      var ids := SortedIds(AssignedUsers(users, roleId));
      var summaries := seq(|ids|, i requires 0 <= i < |ids| => UserSummary(ids[i], users[ids[i]].displayName));
      assert forall id :: id in AssignedUsers(users, roleId) ==>
        exists i :: 0 <= i < |ids| && ids[i] == id && summaries[i].id == id;
      BitArrayExtensions.ExactWidthRoundTrip(role.permissionBitmap);
      Ok(RoleDetails(roleId, role.name, BitArrayExtensions.BitString(role.permissionBitmap), summaries))
  }
}
