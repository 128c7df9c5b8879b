/** What an admin operation does once it is accepted, said of the stored values alone;
    and that a refused one does nothing. */
module AdminEffects {
  import opened Common
  import opened Identity
  import opened Hierarchy
  import opened Directory
  import opened HierarchyTheorems

  /** Nothing but one user has changed. */
  predicate OnlyUser(d: Dir, d': Dir, id: UserId) {
    && d'.roles == d.roles
    && id in d'.users && d'.users.Keys == d.users.Keys + {id}
    && forall u :: u in d.users && u != id ==> d'.users[u] == d.users[u]
  }

  /** Nothing but one role has changed. */
  predicate OnlyRole(d: Dir, d': Dir, name: string) {
    && d'.users == d.users
    && name in d'.roles && d'.roles.Keys == d.roles.Keys + {name}
    && forall n :: n in d.roles && n != name ==> d'.roles[n] == d.roles[n]
  }

  /** The user has the role asked for, or the one before; the status asked for, or the one
      before; and the password of before. */
  lemma AcceptedUserUpdate(d: Dir, inp: UserInput)
    requires UserUpdateError(d, inp).None?
    ensures inp.id in d.users && OnlyUser(d, Apply(d, OpUserUpdate(inp)), inp.id)
    ensures var before, after := d.users[inp.id], Apply(d, OpUserUpdate(inp)).users[inp.id];
            && (inp.role.Some? && inp.role.value != "" ==> after.role == inp.role.value)
            && (inp.role.None? || inp.role.value == "" ==> after.role == before.role)
            && (inp.status.Some? ==> after.status == inp.status.value)
            && (inp.status.None? ==> after.status == before.status)
            && after.password == before.password
  {
  }

  /** The user is deleted and holds the lowest role, unless deleted already. */
  lemma AcceptedUserDelete(d: Dir, caller: Caller, id: UserId)
    requires UserDeleteError(d, caller, id).None?
    ensures id in d.users && OnlyUser(d, Apply(d, OpUserDelete(caller, id)), id)
    ensures var before, after := d.users[id], Apply(d, OpUserDelete(caller, id)).users[id];
            && after.status == Deleted && after.password == before.password
            && (before.status == Deleted ==> after == before)
            && (before.status != Deleted ==> after.role == "user")
  {
  }

  /** A new user, with what was asked for and the defaults for the rest. */
  lemma AcceptedUserCreate(d: Dir, inp: NewUser)
    requires UserCreateError(d, inp).None?
    ensures inp.id !in d.users && OnlyUser(d, Apply(d, OpUserCreate(inp)), inp.id)
    ensures var after := Apply(d, OpUserCreate(inp)).users[inp.id];
            && (inp.role != "" ==> after.role == inp.role) && (inp.role == "" ==> after.role == "user")
            && (inp.status.Some? ==> after.status == inp.status.value) && (inp.status.None? ==> after.status == Active)
            && after.password == inp.password
  {
  }

  lemma AcceptedSetPassword(d: Dir, caller: Caller, id: UserId, longEnough: bool, password: PasswordHash)
    requires SetPasswordError(d, caller, id, longEnough).None?
    ensures id in d.users && OnlyUser(d, Apply(d, OpSetPassword(caller, id, longEnough, password)), id)
    ensures var before, after := d.users[id], Apply(d, OpSetPassword(caller, id, longEnough, password)).users[id];
            after.password == password && after.role == before.role && after.status == before.status
  {
  }

  /** A new custom role under its name, with its rank and exactly the permissions named. */
  lemma AcceptedRoleCreate(d: Dir, caller: Caller, name: string, rank: int, perms: seq<Permission>)
    requires RoleCreateError(d, caller, name, rank, perms).None?
    ensures name !in d.roles && OnlyRole(d, Apply(d, OpRoleCreate(caller, name, rank, perms)), name)
    ensures var role := Apply(d, OpRoleCreate(caller, name, rank, perms)).roles[name];
            && role.rank == rank && !role.system
            && forall p :: p in role.perms <==> p in perms
  {
  }

  lemma AcceptedRoleUpdate(d: Dir, caller: Caller, name: string, rank: Option<int>, perms: Option<seq<Permission>>)
    requires RoleUpdateError(d, caller, name, rank, perms).None?
    ensures name in d.roles && OnlyRole(d, Apply(d, OpRoleUpdate(caller, name, rank, perms)), name)
    ensures var before, after := d.roles[name], Apply(d, OpRoleUpdate(caller, name, rank, perms)).roles[name];
            && (rank.Some? ==> after.rank == rank.value) && (rank.None? ==> after.rank == before.rank)
            && (perms.Some? ==> forall p :: p in after.perms <==> p in perms.value)
            && (perms.None? ==> after.perms == before.perms)
            && after.system == before.system
  {
  }

  lemma AcceptedRoleDelete(d: Dir, caller: Caller, name: string)
    requires RoleDeleteError(d, caller, name).None?
    ensures var d' := Apply(d, OpRoleDelete(caller, name));
            && d'.users == d.users && d'.roles.Keys == d.roles.Keys - {name} && name in d.roles
            && forall n :: n in d'.roles ==> d'.roles[n] == d.roles[n]
  {
  }

  /** A registration makes a plain active user; the first superadmin is made only while
      there is none. */
  lemma SelfService(d: Dir, id: UserId, password: PasswordHash)
    ensures var d' := Apply(d, OpRegister(id, password));
            if id !in d.users && "user" in d.roles
            then OnlyUser(d, d', id) && d'.users[id] == User("user", Active, password)
            else d' == d
    ensures var d' := Apply(d, OpSeedAdmin(id, password));
            if && id !in d.users && "superadmin" in d.roles
               && forall u :: u in d.users ==> d.users[u].role != "superadmin" || d.users[u].status != Active
            then OnlyUser(d, d', id) && d'.users[id] == User("superadmin", Active, password)
            else d' == d
  {
    if u :| u in d.users && d.users[u].role == "superadmin" && d.users[u].status == Active {
      assert u in ActiveSuperAdmins(d.users);
    }
  }

  /** What an operation is refused with, if it is. */
  function ErrorOf(d: Dir, op: Op): Option<AdminError> {
    match op
    case OpUserUpdate(inp) => UserUpdateError(d, inp)
    case OpUserDelete(caller, id) => UserDeleteError(d, caller, id)
    case OpUserCreate(inp) => UserCreateError(d, inp)
    case OpSetPassword(caller, id, longEnough, _) => SetPasswordError(d, caller, id, longEnough)
    case OpRoleCreate(caller, name, rank, perms) => RoleCreateError(d, caller, name, rank, perms)
    case OpRoleUpdate(caller, name, rank, perms) => RoleUpdateError(d, caller, name, rank, perms)
    case OpRoleDelete(caller, name) => RoleDeleteError(d, caller, name)
    case _ => None
  }

  lemma RefusedDoesNothing(d: Dir, op: Op)
    requires ErrorOf(d, op).Some?
    ensures Apply(d, op) == d
  {
  }

  // ----- what a start-up leaves -----

  /** The first entry of a name, if there is one. */
  function FirstOf(seeds: seq<Seed>, n: nat, name: string): Option<Role>
    requires n <= |seeds|
  {
    if n == 0 then None
    else if FirstOf(seeds, n - 1, name).Some? then FirstOf(seeds, n - 1, name)
    else if seeds[n - 1].name == name then Some(seeds[n - 1].role)
    else None
  }

  /** A seeding that succeeds leaves each name with what it was before, or else with its
      first entry, and no other names. */
  lemma {:induction false} SeedingLeaves(roles: Roles, seeds: seq<Seed>, n: nat, name: string)
    requires n <= |seeds| && SeedAll(roles, seeds, n).error.None?
    ensures var after, first := SeedAll(roles, seeds, n).roles, FirstOf(seeds, n, name);
            && (name in after <==> name in roles || first.Some?)
            && (name in roles ==> after[name] == roles[name])
            && (name !in roles && first.Some? ==> after[name] == first.value)
  {
    if n > 0 {
      SeedingLeaves(roles, seeds, n - 1, name);
    }
  }

  /** It fails exactly at an entry whose name is new and whose rank another role has. */
  lemma {:induction false} SeedingFailsIff(roles: Roles, seeds: seq<Seed>, n: nat)
    requires n <= |seeds|
    ensures SeedAll(roles, seeds, n).error.Some? <==> exists i :: 0 <= i < n && FailsAt(roles, seeds, i)
    ensures SeedAll(roles, seeds, n).error.Some? ==> SeedAll(roles, seeds, n).error == Some(AlreadyExists)
  {
    if n > 0 {
      SeedingFailsIff(roles, seeds, n - 1);
      if SeedAll(roles, seeds, n - 1).error.None? && SeedAll(roles, seeds, n).error.Some? {
        assert FailsAt(roles, seeds, n - 1);
      }
    }
  }

  ghost predicate FailsAt(roles: Roles, seeds: seq<Seed>, i: nat)
    requires i < |seeds|
  {
    var before := SeedAll(roles, seeds, i);
    && before.error.None? && seeds[i].name !in before.roles
    && exists m :: m in before.roles && before.roles[m].rank == seeds[i].role.rank
  }

  predicate LeftAs(before: Roles, after: Roles, name: string, rank: int, perms: set<Permission>) {
    name in after && after[name] == if name in before then before[name] else Role(rank, true, perms)
  }

  /** Of a start-up: the built-in roles as the service ships them, where they were not
      there before. */
  lemma BuiltInsAfterStartUp(roles: Roles, configured: seq<Seed>)
    requires SeedRoles(roles, configured).error.None?
    ensures var after := SeedRoles(roles, configured).roles;
            && LeftAs(roles, after, "user", 0, {})
            && LeftAs(roles, after, "manager", 10, {UsersRead, SessionsRead})
            && LeftAs(roles, after, "admin", 50,
                      {UsersRead, UsersCreate, UsersUpdate, UsersDelete, PasswordSet, SessionsRead, SessionsRevoke,
                       AuditRead, RolesRead})
            && LeftAs(roles, after, "superadmin", 100,
                      {UsersRead, UsersCreate, UsersUpdate, UsersDelete, PasswordSet, SessionsRead, SessionsRevoke,
                       AuditRead, RolesRead, RolesManage})
  {
    var seeds := Seeds(configured);
    BuiltInsComeFirst(configured);
    SeedingLeaves(roles, seeds, |seeds|, "user");
    SeedingLeaves(roles, seeds, |seeds|, "manager");
    SeedingLeaves(roles, seeds, |seeds|, "admin");
    SeedingLeaves(roles, seeds, |seeds|, "superadmin");
  }

  /** And every role of the file. */
  lemma FileRolesAfterStartUp(roles: Roles, configured: seq<Seed>, i: nat)
    requires SeedRoles(roles, configured).error.None? && i < |configured| && !Builtin(configured[i].name)
    ensures configured[i].name in SeedRoles(roles, configured).roles
    ensures forall users :: Apply(Dir(roles, users), OpSeedRoles(configured)) == Dir(SeedRoles(roles, configured).roles, users)
  {
    var seeds := Seeds(configured);
    SeedingLeaves(roles, seeds, |seeds|, configured[i].name);
    CustomKeeps(configured, i);
    var k :| 0 <= k < |Custom(configured)| && Custom(configured)[k] == configured[i];
    assert seeds[|DEFAULT_ROLES| + k] == configured[i];
    EntryIsFound(seeds, |seeds|, |DEFAULT_ROLES| + k);
  }

  lemma {:induction false} FirstStays(seeds: seq<Seed>, m: nat, n: nat, name: string)
    requires m <= n <= |seeds| && FirstOf(seeds, m, name).Some?
    ensures FirstOf(seeds, n, name) == FirstOf(seeds, m, name)
  {
    if m < n {
      FirstStays(seeds, m, n - 1, name);
    }
  }

  lemma EntryIsFound(seeds: seq<Seed>, n: nat, k: nat)
    requires k < n <= |seeds|
    ensures FirstOf(seeds, n, seeds[k].name).Some?
  {
    FirstStays(seeds, k + 1, n, seeds[k].name);
  }

  lemma BuiltInsComeFirst(configured: seq<Seed>)
    ensures var seeds := Seeds(configured);
            forall k :: 0 <= k < 4 ==> FirstOf(seeds, |seeds|, DEFAULT_ROLES[k].name) == Some(DEFAULT_ROLES[k].role)
    ensures DEFAULT_ROLES[0].name == "user" && DEFAULT_ROLES[1].name == "manager"
    ensures DEFAULT_ROLES[2].name == "admin" && DEFAULT_ROLES[3].name == "superadmin"
  {
    var seeds := Seeds(configured);
    assert forall k :: 0 <= k < 4 ==> seeds[k] == DEFAULT_ROLES[k];
    forall k | 0 <= k < 4
      ensures FirstOf(seeds, |seeds|, DEFAULT_ROLES[k].name) == Some(DEFAULT_ROLES[k].role)
    {
      FirstAmongDistinct(seeds, k);
      FirstStays(seeds, k + 1, |seeds|, DEFAULT_ROLES[k].name);
    }
  }

  lemma FirstAmongDistinct(seeds: seq<Seed>, k: nat)
    requires k < 4 <= |seeds| && forall i :: 0 <= i < 4 ==> seeds[i] == DEFAULT_ROLES[i]
    ensures FirstOf(seeds, k + 1, seeds[k].name) == Some(seeds[k].role)
  {
    NoneBefore(seeds, k, seeds[k].name);
  }

  lemma {:induction false} NoneBefore(seeds: seq<Seed>, n: nat, name: string)
    requires n <= |seeds| && forall i :: 0 <= i < n ==> seeds[i].name != name
    ensures FirstOf(seeds, n, name).None?
  {
    if n > 0 {
      NoneBefore(seeds, n - 1, name);
    }
  }

  lemma {:induction false} CustomKeeps(configured: seq<Seed>, i: nat)
    requires i < |configured| && !Builtin(configured[i].name)
    ensures exists k :: 0 <= k < |Custom(configured)| && Custom(configured)[k] == configured[i]
  {
    if i > 0 {
      CustomKeeps(configured[1..], i - 1);
      var k :| 0 <= k < |Custom(configured[1..])| && Custom(configured[1..])[k] == configured[i];
      if !Builtin(configured[0].name) {
        assert Custom(configured)[k + 1] == configured[i];
      } else {
        assert Custom(configured)[k] == configured[i];
      }
    } else {
      assert Custom(configured)[0] == configured[0];
    }
  }
}
