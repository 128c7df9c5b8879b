/** Users and roles, and the admin use cases that change them. Each Execute is one
    atomic step. */
module Directory {
  import opened Common
  import opened Hierarchy
  import opened Identity

  type PasswordHash = nat

  datatype User = User(role: string, status: UserStatus, password: PasswordHash)

  type Users = map<UserId, User>
  type Roles = map<string, Role>

  datatype Dir = Dir(roles: Roles, users: Users)

  /** An empty actor id is the machine holding the static token. */
  datatype Caller = Machine | Member(id: UserId)

  /** roleguard.Actor: the machine counts as a superadmin, a member as the role the
      database gives them now, provided they are active. */
  function Actor(d: Dir, caller: Caller): Result<Role, AdminError> {
    match caller
    case Machine => Ok(Role(RANK_SUPERADMIN, true, ALL_PERMISSIONS))
    case Member(id) =>
      if id in d.users && d.users[id].status == Active && d.users[id].role in d.roles
      then Ok(d.roles[d.users[id].role])
      else Err(UserNotFound)
  }

  function ActiveSuperAdmins(users: Users): set<UserId> {
    set u | u in users && users[u].role == SUPERADMIN && users[u].status == Active
  }

  /** What no operation may bring to an end. */
  ghost predicate HasSuperAdmin(users: Users) {
    exists u :: u in users && users[u].role == "superadmin" && users[u].status == Active
  }

  /** Whether the caller may act on a user who holds the named role. */
  function ActOnUserError(d: Dir, actor: Role, role: string): Option<AdminError> {
    if role !in d.roles then Some(RoleNotFound)
    else if !CanManage(actor.rank, d.roles[role].rank) then Some(InsufficientRank)
    else None
  }

  // ----- users -----

  datatype UserInput = UserInput(
    caller: Caller, id: UserId, role: Option<string>, status: Option<UserStatus>,
    identifiersValid: bool,  // the username and email given are well formed
    storeAccepts: bool)      // no identifier is taken, and one remains

  function UserUpdateError(d: Dir, inp: UserInput): Option<AdminError> {
    if inp.id !in d.users then Some(UserNotFound)
    else
      var current := d.users[inp.id];
      var roleChanges := inp.role.Some? && inp.role.value != current.role;
      match Actor(d, inp.caller)
      case Err(e) => Some(e)
      case Ok(actor) =>
        if roleChanges && inp.caller == Member(inp.id) then Some(SelfDemote)
        else if ActOnUserError(d, actor, current.role).Some? then ActOnUserError(d, actor, current.role)
        else if !inp.identifiersValid then Some(Rejected)
        else if roleChanges && ActOnUserError(d, actor, inp.role.value).Some? then ActOnUserError(d, actor, inp.role.value)
        else
          var losesActive := inp.status.Some? && current.status == Active && inp.status.value != Active;
          if current.role == SUPERADMIN && current.status == Active && (roleChanges || losesActive)
             && |ActiveSuperAdmins(d.users)| <= 1 then Some(LastAdmin)
          else if !inp.storeAccepts then Some(Rejected)
          else None
  }

  function UpdatedUser(current: User, inp: UserInput): User {
    current.(role := if inp.role.Some? && inp.role.value != "" then inp.role.value else current.role,
             status := if inp.status.Some? then inp.status.value else current.status)
  }

  function UserUpdate(d: Dir, inp: UserInput): Dir {
    if UserUpdateError(d, inp).Some? then d
    else d.(users := d.users[inp.id := UpdatedUser(d.users[inp.id], inp)])
  }

  function UserDeleteError(d: Dir, caller: Caller, id: UserId): Option<AdminError> {
    if id !in d.users then Some(UserNotFound)
    else if d.users[id].status == Deleted then None
    else if caller == Member(id) then Some(SelfDemote)
    else match Actor(d, caller)
         case Err(e) => Some(e)
         case Ok(actor) =>
           var current := d.users[id];
           if ActOnUserError(d, actor, current.role).Some? then ActOnUserError(d, actor, current.role)
           else if current.role == SUPERADMIN && current.status == Active && |ActiveSuperAdmins(d.users)| <= 1
           then Some(LastAdmin)
           else None
  }

  function UserDelete(d: Dir, caller: Caller, id: UserId): Dir {
    if UserDeleteError(d, caller, id).Some? || d.users[id].status == Deleted then d
    else d.(users := d.users[id := d.users[id].(status := Deleted, role := USER)])
  }

  datatype NewUser = NewUser(
    caller: Caller, id: UserId, role: string, status: Option<UserStatus>, password: PasswordHash,
    inputValid: bool,    // identifiers and password pass their checks
    storeAccepts: bool)  // the id is new and no identifier is taken

  function RoleOrDefault(role: string): string {
    if role == "" then USER else role
  }

  function UserCreateError(d: Dir, inp: NewUser): Option<AdminError> {
    if !inp.inputValid then Some(Rejected)
    else
      var role := RoleOrDefault(inp.role);
      if role !in d.roles then Some(RoleNotFound)
      else match Actor(d, inp.caller)
           case Err(e) => Some(e)
           case Ok(actor) =>
             if !CanManage(actor.rank, d.roles[role].rank) then Some(InsufficientRank)
             else if !inp.storeAccepts || inp.id in d.users then Some(Rejected)
             else None
  }

  function UserCreate(d: Dir, inp: NewUser): Dir {
    if UserCreateError(d, inp).Some? then d
    else d.(users := d.users[inp.id := User(RoleOrDefault(inp.role),
                                            if inp.status.Some? then inp.status.value else Active, inp.password)])
  }

  function SetPasswordError(d: Dir, caller: Caller, id: UserId, longEnough: bool): Option<AdminError> {
    if id !in d.users then Some(UserNotFound)
    else match Actor(d, caller)
         case Err(e) => Some(e)
         case Ok(actor) =>
           if ActOnUserError(d, actor, d.users[id].role).Some? then ActOnUserError(d, actor, d.users[id].role)
           else if !longEnough then Some(Rejected)
           else None
  }

  function SetPassword(d: Dir, caller: Caller, id: UserId, longEnough: bool, password: PasswordHash): Dir {
    if SetPasswordError(d, caller, id, longEnough).Some? then d
    else d.(users := d.users[id := d.users[id].(password := password)])
  }

  // ----- roles -----

  predicate RankTaken(roles: Roles, rank: int, but: string) {
    exists n :: n in roles && n != but && roles[n].rank == rank
  }

  function RoleCreateError(d: Dir, caller: Caller, name: string, rank: int, perms: seq<Permission>): Option<AdminError> {
    if Builtin(name) || !ValidRoleName(name) || !ValidCustomRank(rank) then Some(InvalidInput)
    else match Actor(d, caller)
         case Err(e) => Some(e)
         case Ok(actor) =>
           if !CanManage(actor.rank, rank) then Some(InsufficientRank)
           else if MayPlaceInRole(actor, perms).Some? then MayPlaceInRole(actor, perms)
           else if name in d.roles || RankTaken(d.roles, rank, name) then Some(AlreadyExists)
           else None
  }

  function RoleCreate(d: Dir, caller: Caller, name: string, rank: int, perms: seq<Permission>): Dir {
    if RoleCreateError(d, caller, name, rank, perms).Some? then d
    else d.(roles := d.roles[name := Role(rank, false, PermSet(perms))])
  }

  function RoleUpdateError(d: Dir, caller: Caller, name: string, rank: Option<int>, perms: Option<seq<Permission>>)
    : Option<AdminError>
  {
    if name !in d.roles then Some(RoleNotFound)
    else if d.roles[name].system then Some(RoleProtected)
    else match Actor(d, caller)
         case Err(e) => Some(e)
         case Ok(actor) =>
           if !CanManage(actor.rank, d.roles[name].rank) then Some(InsufficientRank)
           else if rank.Some? && !ValidCustomRank(rank.value) then Some(InvalidInput)
           else if rank.Some? && !CanManage(actor.rank, rank.value) then Some(InsufficientRank)
           else if perms.Some? && MayPlaceInRole(actor, perms.value).Some? then MayPlaceInRole(actor, perms.value)
           else if rank.Some? && RankTaken(d.roles, rank.value, name) then Some(AlreadyExists)
           else None
  }

  function RoleUpdate(d: Dir, caller: Caller, name: string, rank: Option<int>, perms: Option<seq<Permission>>): Dir {
    if RoleUpdateError(d, caller, name, rank, perms).Some? then d
    else
      var before := d.roles[name];
      d.(roles := d.roles[name := before.(rank := if rank.Some? then rank.value else before.rank,
                                       perms := if perms.Some? then PermSet(perms.value) else before.perms)])
  }

  predicate RoleHeld(users: Users, name: string) {
    exists u :: u in users && users[u].role == name
  }

  function RoleDeleteError(d: Dir, caller: Caller, name: string): Option<AdminError> {
    if name !in d.roles then Some(RoleNotFound)
    else if d.roles[name].system then Some(RoleProtected)
    else match Actor(d, caller)
         case Err(e) => Some(e)
         case Ok(actor) =>
           if !CanManage(actor.rank, d.roles[name].rank) then Some(InsufficientRank)
           else if RoleHeld(d.users, name) then Some(RoleInUse)
           else None
  }

  function RoleDelete(d: Dir, caller: Caller, name: string): Dir {
    if RoleDeleteError(d, caller, name).Some? then d
    else d.(roles := d.roles - {name})
  }

  // ----- seeding -----

  datatype Seed = Seed(name: string, role: Role)

  const DEFAULT_ROLES: seq<Seed> := [
    Seed(USER, Role(0, true, {})),
    Seed(MANAGER, Role(10, true, {UsersRead, SessionsRead})),
    Seed(ADMIN, Role(50, true, ALL_PERMISSIONS - {RolesManage})),
    Seed(SUPERADMIN, Role(100, true, ALL_PERMISSIONS))
  ]

  datatype Seeded = Seeded(roles: Roles, created: nat, error: Option<AdminError>)

  /** One entry: nothing happens after an error or to a name already there. */
  function SeedOne(before: Seeded, s: Seed): Seeded {
    if before.error.Some? || s.name in before.roles then before
    else if RankTaken(before.roles, s.role.rank, s.name) then before.(error := Some(AlreadyExists))
    else Seeded(before.roles[s.name := s.role], before.created + 1, None)
  }

  /** Seeds the first n entries, stopping at the first whose rank is taken. */
  function SeedAll(roles: Roles, seeds: seq<Seed>, n: nat): Seeded
    requires n <= |seeds|
  {
    if n == 0 then Seeded(roles, 0, None) else SeedOne(SeedAll(roles, seeds, n - 1), seeds[n - 1])
  }

  /** What LoadConfig lets through. */
  predicate ValidSeeds(seeds: seq<Seed>) {
    forall i :: 0 <= i < |seeds| && !Builtin(seeds[i].name) ==> ValidCustomRank(seeds[i].role.rank)
  }

  /** The configured roles without those that name a built-in one. */
  function Custom(seeds: seq<Seed>): seq<Seed> {
    if seeds == [] then []
    else if Builtin(seeds[0].name) then Custom(seeds[1..])
    else [seeds[0]] + Custom(seeds[1..])
  }

  /** Everything a start-up seeds, in order. */
  function Seeds(configured: seq<Seed>): seq<Seed> {
    DEFAULT_ROLES + Custom(configured)
  }

  function SeedRoles(roles: Roles, configured: seq<Seed>): Seeded {
    SeedAll(roles, Seeds(configured), |Seeds(configured)|)
  }
}
