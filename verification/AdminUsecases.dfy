/** The admin use cases as the service runs them: a sequence of reads and checks
    over the stored users and roles, then one write. */
module AdminUsecases {
  import opened Common
  import opened Hierarchy
  import opened Identity
  import opened Directory

  class AdminStore {
    var roles: Roles
    var users: Users

    function View(): Dir
      reads this
    {
      Dir(roles, users)
    }

    constructor ()
      ensures View() == Dir(map[], map[])
    {
      roles, users := map[], map[];
    }

    method ResolveActor(caller: Caller) returns (r: Result<Role, AdminError>)
      ensures r == Actor(View(), caller)
    {
      match caller {
        case Machine =>
          return Ok(Role(RANK_SUPERADMIN, true, ALL_PERMISSIONS));
        case Member(id) =>
          if id in users && users[id].status == Active && users[id].role in roles {
            return Ok(roles[users[id].role]);
          }
          return Err(UserNotFound);
      }
    }

    method CountActiveSuperAdmins() returns (n: nat)
      ensures n == |ActiveSuperAdmins(users)|
    {
      var left := users.Keys;
      ghost var counted: set<UserId> := {};
      n := 0;
      while left != {}
        invariant left <= users.Keys && n == |counted|
        invariant counted == set u | u in users.Keys - left && users[u].role == SUPERADMIN && users[u].status == Active
        decreases left
      {
        var u :| u in left;
        if users[u].role == SUPERADMIN && users[u].status == Active {
          n := n + 1;
          counted := counted + {u};
        }
        left := left - {u};
      }
      assert counted == ActiveSuperAdmins(users);
    }

    /** admin_user_update. */
    method UserUpdateExecute(inp: UserInput) returns (error: Option<AdminError>)
      modifies this
      ensures error == UserUpdateError(old(View()), inp)
      ensures View() == UserUpdate(old(View()), inp)
    {
      if inp.id !in users {
        return Some(UserNotFound);
      }
      var current := users[inp.id];
      var roleChanges := inp.role.Some? && inp.role.value != current.role;

      var resolved := ResolveActor(inp.caller);
      if resolved.Err? {
        return Some(resolved.error);
      }
      var actor := resolved.value;

      if roleChanges && inp.caller == Member(inp.id) {
        return Some(SelfDemote);
      }
      if current.role !in roles {
        return Some(RoleNotFound);
      }
      if !CanManage(actor.rank, roles[current.role].rank) {
        return Some(InsufficientRank);
      }
      if !inp.identifiersValid {
        return Some(Rejected);
      }
      if roleChanges {
        if inp.role.value !in roles {
          return Some(RoleNotFound);
        }
        if !CanManage(actor.rank, roles[inp.role.value].rank) {
          return Some(InsufficientRank);
        }
      }

      var losesSuperAdmin := roleChanges && current.role == SUPERADMIN;
      var losesActive := inp.status.Some? && current.status == Active && inp.status.value != Active;
      if current.role == SUPERADMIN && current.status == Active && (losesSuperAdmin || losesActive) {
        var admins := CountActiveSuperAdmins();
        if admins <= 1 {
          return Some(LastAdmin);
        }
      }
      if !inp.storeAccepts {
        return Some(Rejected);
      }
      if inp.role.Some? && inp.role.value != "" {
        users := users[inp.id := users[inp.id].(role := inp.role.value)];
      }
      if inp.status.Some? {
        users := users[inp.id := users[inp.id].(status := inp.status.value)];
      }
      assert users == old(users)[inp.id := UpdatedUser(old(users)[inp.id], inp)];
      return None;
    }

    /** admin_user_delete. */
    method UserDeleteExecute(caller: Caller, id: UserId) returns (error: Option<AdminError>)
      modifies this
      ensures error == UserDeleteError(old(View()), caller, id)
      ensures View() == UserDelete(old(View()), caller, id)
    {
      if id !in users {
        return Some(UserNotFound);
      }
      var current := users[id];
      if current.status == Deleted {
        return None;
      }
      if caller == Member(id) {
        return Some(SelfDemote);
      }
      var resolved := ResolveActor(caller);
      if resolved.Err? {
        return Some(resolved.error);
      }
      if current.role !in roles {
        return Some(RoleNotFound);
      }
      if !CanManage(resolved.value.rank, roles[current.role].rank) {
        return Some(InsufficientRank);
      }
      if current.role == SUPERADMIN && current.status == Active {
        var admins := CountActiveSuperAdmins();
        if admins <= 1 {
          return Some(LastAdmin);
        }
      }
      users := users[id := current.(status := Deleted, role := USER)];
      return None;
    }

    /** admin_user_create. */
    method UserCreateExecute(inp: NewUser) returns (error: Option<AdminError>)
      modifies this
      ensures error == UserCreateError(old(View()), inp)
      ensures View() == UserCreate(old(View()), inp)
    {
      if !inp.inputValid {
        return Some(Rejected);
      }
      var role := inp.role;
      if role == "" {
        role := USER;
      }
      if role !in roles {
        return Some(RoleNotFound);
      }
      var resolved := ResolveActor(inp.caller);
      if resolved.Err? {
        return Some(resolved.error);
      }
      if !CanManage(resolved.value.rank, roles[role].rank) {
        return Some(InsufficientRank);
      }
      var status := if inp.status.Some? then inp.status.value else Active;
      if !inp.storeAccepts || inp.id in users {
        return Some(Rejected);
      }
      users := users[inp.id := User(role, status, inp.password)];
      return None;
    }

    /** admin_user_set_password. */
    method SetPasswordExecute(caller: Caller, id: UserId, longEnough: bool, password: PasswordHash)
      returns (error: Option<AdminError>)
      modifies this
      ensures error == SetPasswordError(old(View()), caller, id, longEnough)
      ensures View() == SetPassword(old(View()), caller, id, longEnough, password)
    {
      if id !in users {
        return Some(UserNotFound);
      }
      var resolved := ResolveActor(caller);
      if resolved.Err? {
        return Some(resolved.error);
      }
      var role := users[id].role;
      if role !in roles {
        return Some(RoleNotFound);
      }
      if !CanManage(resolved.value.rank, roles[role].rank) {
        return Some(InsufficientRank);
      }
      if !longEnough {
        return Some(Rejected);
      }
      users := users[id := users[id].(password := password)];
      return None;
    }

    /** admin_role_create. */
    method RoleCreateExecute(caller: Caller, name: string, rank: int, perms: seq<Permission>)
      returns (error: Option<AdminError>)
      modifies this
      ensures error == RoleCreateError(old(View()), caller, name, rank, perms)
      ensures View() == RoleCreate(old(View()), caller, name, rank, perms)
    {
      if Builtin(name) || !ValidRoleName(name) {
        return Some(InvalidInput);
      }
      if !ValidCustomRank(rank) {
        return Some(InvalidInput);
      }
      var resolved := ResolveActor(caller);
      if resolved.Err? {
        return Some(resolved.error);
      }
      if !CanManage(resolved.value.rank, rank) {
        return Some(InsufficientRank);
      }
      var refused := MayPlaceInRole(resolved.value, perms);
      if refused.Some? {
        return refused;
      }
      if name in roles || RankTaken(roles, rank, name) {
        return Some(AlreadyExists);
      }
      roles := roles[name := Role(rank, false, {})];
      AddPermissions(name, perms);
      return None;
    }

    /** replaceRolePermissions: out with the old set, then one insert per entry. */
    method AddPermissions(name: string, perms: seq<Permission>)
      requires name in roles
      modifies this`roles
      ensures roles == old(roles)[name := old(roles)[name].(perms := PermSet(perms))]
    {
      roles := roles[name := roles[name].(perms := {})];
      assert PermSet(perms[..0]) == {};
      for i := 0 to |perms|
        invariant roles == old(roles)[name := old(roles)[name].(perms := PermSet(perms[..i]))]
      {
        assert perms[..i + 1] == perms[..i] + [perms[i]];
        assert PermSet(perms[..i + 1]) == PermSet(perms[..i]) + {perms[i]};
        roles := roles[name := roles[name].(perms := roles[name].perms + {perms[i]})];
      }
      assert perms[..|perms|] == perms;
    }

    /** admin_role_update. */
    method RoleUpdateExecute(caller: Caller, name: string, rank: Option<int>, perms: Option<seq<Permission>>)
      returns (error: Option<AdminError>)
      modifies this
      ensures error == RoleUpdateError(old(View()), caller, name, rank, perms)
      ensures View() == RoleUpdate(old(View()), caller, name, rank, perms)
    {
      if name !in roles {
        return Some(RoleNotFound);
      }
      var current := roles[name];
      if current.system {
        return Some(RoleProtected);
      }
      var resolved := ResolveActor(caller);
      if resolved.Err? {
        return Some(resolved.error);
      }
      var actor := resolved.value;
      if !CanManage(actor.rank, current.rank) {
        return Some(InsufficientRank);
      }
      if rank.Some? {
        if !ValidCustomRank(rank.value) {
          return Some(InvalidInput);
        }
        if !CanManage(actor.rank, rank.value) {
          return Some(InsufficientRank);
        }
      }
      if perms.Some? {
        var refused := MayPlaceInRole(actor, perms.value);
        if refused.Some? {
          return refused;
        }
      }
      if rank.Some? {
        if RankTaken(roles, rank.value, name) {
          return Some(AlreadyExists);
        }
        roles := roles[name := roles[name].(rank := rank.value)];
      }
      if perms.Some? {
        AddPermissions(name, perms.value);
      }
      return None;
    }

    /** admin_role_delete. */
    method RoleDeleteExecute(caller: Caller, name: string) returns (error: Option<AdminError>)
      modifies this
      ensures error == RoleDeleteError(old(View()), caller, name)
      ensures View() == RoleDelete(old(View()), caller, name)
    {
      if name !in roles {
        return Some(RoleNotFound);
      }
      if roles[name].system {
        return Some(RoleProtected);
      }
      var resolved := ResolveActor(caller);
      if resolved.Err? {
        return Some(resolved.error);
      }
      if !CanManage(resolved.value.rank, roles[name].rank) {
        return Some(InsufficientRank);
      }
      if RoleHeld(users, name) {
        return Some(RoleInUse);
      }
      roles := roles - {name};
      return None;
    }

    /** SeedRole: inserted only when the name is absent; a taken rank is an error. */
    method SeedRole(s: Seed) returns (made: bool, error: Option<AdminError>)
      modifies this`roles
      ensures s.name in old(roles) ==> !made && error.None? && roles == old(roles)
      ensures s.name !in old(roles) && RankTaken(old(roles), s.role.rank, s.name) ==>
                !made && error == Some(AlreadyExists) && roles == old(roles)
      ensures s.name !in old(roles) && !RankTaken(old(roles), s.role.rank, s.name) ==>
                made && error.None? && roles == old(roles)[s.name := s.role]
    {
      if s.name in roles {
        return false, None;
      }
      if RankTaken(roles, s.role.rank, s.name) {
        return false, Some(AlreadyExists);
      }
      roles := roles[s.name := s.role];
      return true, None;
    }

    method SeedDefaults() returns (created: nat, error: Option<AdminError>)
      modifies this`roles
      ensures Seeded(roles, created, error) == SeedAll(old(roles), DEFAULT_ROLES, |DEFAULT_ROLES|)
    {
      created, error := 0, None;
      for i := 0 to |DEFAULT_ROLES|
        invariant Seeded(roles, created, None) == SeedAll(old(roles), DEFAULT_ROLES, i)
      {
        var made, failed := SeedRole(DEFAULT_ROLES[i]);
        if failed.Some? {
          SeedingStopsAtError(old(roles), DEFAULT_ROLES, i + 1, |DEFAULT_ROLES|);
          return created, failed;
        }
        created := if made then created + 1 else created;
      }
    }

    /** The file's roles; re-declaring a built-in one is skipped. */
    method SeedConfigured(configured: seq<Seed>) returns (created: nat, error: Option<AdminError>)
      modifies this`roles
      ensures Seeded(roles, created, error) == SeedAll(old(roles), Custom(configured), |Custom(configured)|)
    {
      created, error := 0, None;
      ghost var seeds := Custom(configured);
      ghost var at: nat := 0;
      for i := 0 to |configured|
        invariant at <= |seeds| && seeds[at..] == Custom(configured[i..])
        invariant Seeded(roles, created, None) == SeedAll(old(roles), seeds, at)
      {
        assert configured[i..][1..] == configured[i + 1..];
        if Builtin(configured[i].name) {
          continue;
        }
        assert seeds[at] == configured[i];
        var made, failed := SeedRole(configured[i]);
        if failed.Some? {
          SeedingStopsAtError(old(roles), seeds, at + 1, |seeds|);
          return created, failed;
        }
        created := if made then created + 1 else created;
        at := at + 1;
      }
    }

    /** seed_roles: the built-in roles, then those of the file; stops at an error. */
    method SeedExecute(configured: seq<Seed>) returns (created: nat, error: Option<AdminError>)
      modifies this`roles
      ensures Seeded(roles, created, error) == SeedRoles(old(roles), configured)
    {
      SeedAllConcat(old(roles), DEFAULT_ROLES, Custom(configured), |Custom(configured)|);
      created, error := SeedDefaults();
      if error.Some? {
        return;
      }
      var more: nat;
      more, error := SeedConfigured(configured);
      created := created + more;
    }
  }

  /** Seeding two lists in turn is seeding their concatenation. */
  lemma {:induction false} SeedAllConcat(roles: Roles, a: seq<Seed>, b: seq<Seed>, n: nat)
    requires n <= |b|
    ensures var first := SeedAll(roles, a, |a|);
            SeedAll(roles, a + b, |a| + n)
            == if first.error.Some? then first else Counting(first.created, SeedAll(first.roles, b, n))
  {
    if n == 0 {
      SeedPrefix(roles, a, b, |a|);
    } else {
      SeedAllConcat(roles, a, b, n - 1);
      assert (a + b)[|a| + n - 1] == b[n - 1];
      var first := SeedAll(roles, a, |a|);
      CountingPasses(first.created, SeedAll(first.roles, b, n - 1), b[n - 1]);
    }
  }

  /** The same outcome on top of an earlier count. */
  function Counting(before: nat, r: Seeded): Seeded {
    r.(created := before + r.created)
  }

  lemma CountingPasses(before: nat, r: Seeded, s: Seed)
    ensures SeedOne(Counting(before, r), s) == Counting(before, SeedOne(r, s))
  {
  }

  lemma {:induction false} SeedPrefix(roles: Roles, a: seq<Seed>, b: seq<Seed>, n: nat)
    requires n <= |a|
    ensures SeedAll(roles, a + b, n) == SeedAll(roles, a, n)
  {
    if n > 0 {
      SeedPrefix(roles, a, b, n - 1);
    }
  }

  lemma {:induction false} SeedingStopsAtError(roles: Roles, seeds: seq<Seed>, m: nat, n: nat)
    requires m <= n <= |seeds| && SeedAll(roles, seeds, m).error.Some?
    ensures SeedAll(roles, seeds, n) == SeedAll(roles, seeds, m)
  {
    if m < n {
      SeedingStopsAtError(roles, seeds, m, n - 1);
    }
  }
}
