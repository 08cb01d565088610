/**
  The Permissions enum: each action the API guards, with the bit index it occupies in a
  role's permission bitmap. Resources take one decade each, Read at the decade's first index.
 */
module Permissions {
  import opened Common

  datatype Permission =
    | ReadProject | CreateProject | UpdateProject | DeleteProject
    | ReadCustomer | CreateCustomer | UpdateCustomer | DeleteCustomer
    | ReadUser | UpdateUser | CreateUser
    | ReadRole | CreateRole | UpdateRole | DeleteRole
    | ReadActivity | CreateActivity | UpdateActivity | DeleteActivity
    | ReadBooking | CreateBooking | UpdateBooking | DeleteBooking
    | ReadTeam | CreateTeam | UpdateTeam | DeleteTeam

  /** The resources the permissions are grouped by. */
  datatype Resource = Project | Customer | UserResource | RoleResource | Activity | Booking | Team

  /** The enum value of a permission, which is its bit index. */
  function Code(p: Permission): (c: int)
    ensures 10 <= c <= 73 && c % 10 <= 3
  {
    match p
    case ReadProject => 10
    case CreateProject => 11
    case UpdateProject => 12
    case DeleteProject => 13
    case ReadCustomer => 20
    case CreateCustomer => 21
    case UpdateCustomer => 22
    case DeleteCustomer => 23
    case ReadUser => 30
    case UpdateUser => 31
    case CreateUser => 32
    case ReadRole => 40
    case CreateRole => 41
    case UpdateRole => 42
    case DeleteRole => 43
    case ReadActivity => 50
    case CreateActivity => 51
    case UpdateActivity => 52
    case DeleteActivity => 53
    case ReadBooking => 60
    case CreateBooking => 61
    case UpdateBooking => 62
    case DeleteBooking => 63
    case ReadTeam => 70
    case CreateTeam => 71
    case UpdateTeam => 72
    case DeleteTeam => 73
  }

  /** The resource a permission guards. */
  function ResourceOf(p: Permission): Resource {
    match p
    case ReadProject | CreateProject | UpdateProject | DeleteProject => Project
    case ReadCustomer | CreateCustomer | UpdateCustomer | DeleteCustomer => Customer
    case ReadUser | UpdateUser | CreateUser => UserResource
    case ReadRole | CreateRole | UpdateRole | DeleteRole => RoleResource
    case ReadActivity | CreateActivity | UpdateActivity | DeleteActivity => Activity
    case ReadBooking | CreateBooking | UpdateBooking | DeleteBooking => Booking
    case ReadTeam | CreateTeam | UpdateTeam | DeleteTeam => Team
  }

  /** The first bit index of a resource's decade. */
  function Decade(r: Resource): int {
    match r
    case Project => 10
    case Customer => 20
    case UserResource => 30
    case RoleResource => 40
    case Activity => 50
    case Booking => 60
    case Team => 70
  }

  /** The four actions a decade can hold, at offsets 0 to 3. */
  datatype Action = Read | Create | Update | Delete

  function ActionOf(p: Permission): Action {
    match p
    case ReadProject | ReadCustomer | ReadUser | ReadRole | ReadActivity | ReadBooking | ReadTeam => Read
    case CreateProject | CreateCustomer | CreateUser | CreateRole | CreateActivity | CreateBooking | CreateTeam => Create
    case UpdateProject | UpdateCustomer | UpdateUser | UpdateRole | UpdateActivity | UpdateBooking | UpdateTeam => Update
    case DeleteProject | DeleteCustomer | DeleteRole | DeleteActivity | DeleteBooking | DeleteTeam => Delete
  }

  function Offset(a: Action): int {
    match a
    case Read => 0
    case Create => 1
    case Update => 2
    case Delete => 3
  }

  /** The permission an enum value names, if any. */
  function FromCode(c: int): (p: Option<Permission>)
    ensures p.Some? ==> Code(p.value) == c
    ensures p.None? ==> forall q :: Code(q) != c
  {
    if c == 10 then Some(ReadProject) else if c == 11 then Some(CreateProject)
    else if c == 12 then Some(UpdateProject) else if c == 13 then Some(DeleteProject)
    else if c == 20 then Some(ReadCustomer) else if c == 21 then Some(CreateCustomer)
    else if c == 22 then Some(UpdateCustomer) else if c == 23 then Some(DeleteCustomer)
    else if c == 30 then Some(ReadUser) else if c == 31 then Some(UpdateUser)
    else if c == 32 then Some(CreateUser)
    else if c == 40 then Some(ReadRole) else if c == 41 then Some(CreateRole)
    else if c == 42 then Some(UpdateRole) else if c == 43 then Some(DeleteRole)
    else if c == 50 then Some(ReadActivity) else if c == 51 then Some(CreateActivity)
    else if c == 52 then Some(UpdateActivity) else if c == 53 then Some(DeleteActivity)
    else if c == 60 then Some(ReadBooking) else if c == 61 then Some(CreateBooking)
    else if c == 62 then Some(UpdateBooking) else if c == 63 then Some(DeleteBooking)
    else if c == 70 then Some(ReadTeam) else if c == 71 then Some(CreateTeam)
    else if c == 72 then Some(UpdateTeam) else if c == 73 then Some(DeleteTeam)
    else None
  }

  /** Every code is a valid index into the 256-bit mask, and bits 0 to 9 are never used. */
  lemma CodeIsMaskIndex(p: Permission)
    ensures 10 <= Code(p) < 256
  {
  }

  /** Reading a permission's code back gives the permission. */
  lemma CodeRoundTrip(p: Permission)
    ensures FromCode(Code(p)) == Some(p)
  {
  }

  /** No two permissions share a bit. */
  lemma CodesDistinct(p: Permission, q: Permission)
    ensures Code(p) == Code(q) <==> p == q
  {
    CodeRoundTrip(p);
    CodeRoundTrip(q);
  }

  /**
    Each permission sits in its resource's decade at its action's offset, Read first. The one
    exception is the User group, where Update takes offset 1 and Create offset 2.
   */
  lemma DecadeLayout(p: Permission)
    ensures Code(p) / 10 * 10 == Decade(ResourceOf(p))
    ensures ActionOf(p) == Read ==> Code(p) == Decade(ResourceOf(p))
    ensures p != UpdateUser && p != CreateUser ==> Code(p) == Decade(ResourceOf(p)) + Offset(ActionOf(p))
    ensures Code(UpdateUser) == 31 && Code(CreateUser) == 32
  {
  }

  /** The User group has no Delete permission: index 33 names nothing. */
  lemma UserGroupHasNoDelete(p: Permission)
    ensures ResourceOf(p) == UserResource ==> ActionOf(p) != Delete
    ensures FromCode(33) == None
  {
  }
}
