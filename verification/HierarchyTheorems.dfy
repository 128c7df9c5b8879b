/** What the admin operations keep true over every run. */
module HierarchyTheorems {
  import opened Common
  import opened Hierarchy
  import opened Identity
  import opened Directory

  datatype Op =
    | OpUserUpdate(inp: UserInput)
    | OpUserDelete(caller: Caller, id: UserId)
    | OpUserCreate(newUser: NewUser)
    | OpSetPassword(caller: Caller, id: UserId, longEnough: bool, password: PasswordHash)
    | OpRoleCreate(caller: Caller, name: string, rank: int, perms: seq<Permission>)
    | OpRoleUpdate(caller: Caller, name: string, newRank: Option<int>, newPerms: Option<seq<Permission>>)
    | OpRoleDelete(caller: Caller, name: string)
    | OpRegister(id: UserId, password: PasswordHash)
    | OpSeedRoles(configured: seq<Seed>)
    | OpSeedAdmin(id: UserId, password: PasswordHash)

  function Apply(d: Dir, op: Op): Dir {
    match op
    case OpUserUpdate(inp) => UserUpdate(d, inp)
    case OpUserDelete(caller, id) => UserDelete(d, caller, id)
    case OpUserCreate(inp) => UserCreate(d, inp)
    case OpSetPassword(caller, id, longEnough, password) => SetPassword(d, caller, id, longEnough, password)
    case OpRoleCreate(caller, name, rank, perms) => RoleCreate(d, caller, name, rank, perms)
    case OpRoleUpdate(caller, name, rank, perms) => RoleUpdate(d, caller, name, rank, perms)
    case OpRoleDelete(caller, name) => RoleDelete(d, caller, name)
    case OpRegister(id, password) =>
      if id in d.users || USER !in d.roles then d else d.(users := d.users[id := User(USER, Active, password)])
    case OpSeedRoles(configured) => d.(roles := SeedRoles(d.roles, configured).roles)
    case OpSeedAdmin(id, password) =>
      if id in d.users || SUPERADMIN !in d.roles || ActiveSuperAdmins(d.users) != {} then d
      else d.(users := d.users[id := User(SUPERADMIN, Active, password)])
  }

  predicate LegalOp(op: Op) {
    op.OpSeedRoles? ==> ValidSeeds(op.configured)
  }

  function Run(d: Dir, ops: seq<Op>): Dir
    decreases |ops|
  {
    if ops == [] then d else Run(Apply(d, ops[0]), ops[1..])
  }

  // ----- the floor -----

  predicate InRange(name: string, role: Role) {
    && 0 <= role.rank <= 100
    && (role.rank == 100 <==> name == SUPERADMIN)
    && (role.rank == 0 <==> name == USER)
  }

  /** Ranks are distinct; 100 and 0 belong to the two ends alone. */
  ghost predicate Ranked(roles: Roles) {
    && (forall n :: n in roles ==> InRange(n, roles[n]))
    && (forall m, n :: m in roles && n in roles && roles[m].rank == roles[n].rank ==> m == n)
  }

  ghost predicate RolesFloor(roles: Roles) {
    && USER in roles && roles[USER].system
    && SUPERADMIN in roles && roles[SUPERADMIN].system && roles[SUPERADMIN].perms == ALL_PERMISSIONS
    && Ranked(roles)
  }

  ghost predicate Floor(d: Dir) {
    RolesFloor(d.roles) && forall u :: u in d.users ==> d.users[u].role in d.roles
  }

  // ----- seeding -----

  /** Seeding changes nothing already present. */
  lemma {:induction false} SeedingNeverOverwrites(roles: Roles, seeds: seq<Seed>, n: nat)
    requires n <= |seeds|
    ensures var r := SeedAll(roles, seeds, n);
            && (forall name :: name in roles ==> name in r.roles && r.roles[name] == roles[name])
            && |r.roles| == |roles| + r.created
  {
    if n > 0 {
      SeedingNeverOverwrites(roles, seeds, n - 1);
    }
  }

  lemma {:induction false} SeededNamesExist(roles: Roles, seeds: seq<Seed>, n: nat)
    requires n <= |seeds| && SeedAll(roles, seeds, n).error.None?
    ensures forall i :: 0 <= i < n ==> seeds[i].name in SeedAll(roles, seeds, n).roles
  {
    if n > 0 {
      SeededNamesExist(roles, seeds, n - 1);
    }
  }

  lemma {:induction false} SeedingPresentIsNothing(roles: Roles, seeds: seq<Seed>, n: nat)
    requires n <= |seeds| && forall i :: 0 <= i < n ==> seeds[i].name in roles
    ensures SeedAll(roles, seeds, n) == Seeded(roles, 0, None)
  {
    if n > 0 {
      SeedingPresentIsNothing(roles, seeds, n - 1);
    }
  }

  /** A second start-up with the same file creates nothing and changes nothing. */
  lemma SeedingTwiceIsSeedingOnce(roles: Roles, configured: seq<Seed>)
    requires SeedRoles(roles, configured).error.None?
    ensures SeedRoles(SeedRoles(roles, configured).roles, configured)
            == Seeded(SeedRoles(roles, configured).roles, 0, None)
  {
    var seeds := Seeds(configured);
    SeededNamesExist(roles, seeds, |seeds|);
    SeedingPresentIsNothing(SeedRoles(roles, configured).roles, seeds, |seeds|);
  }

  lemma {:induction false} CustomSeedsAreMidRank(configured: seq<Seed>)
    requires ValidSeeds(configured)
    ensures forall i :: 0 <= i < |Custom(configured)| ==>
              !Builtin(Custom(configured)[i].name) && ValidCustomRank(Custom(configured)[i].role.rank)
  {
    if configured != [] {
      assert ValidSeeds(configured[1..]) by {
        assert forall i :: 0 <= i < |configured[1..]| ==> configured[1..][i] == configured[i + 1];
      }
      CustomSeedsAreMidRank(configured[1..]);
    }
  }

  lemma SeedsInRange(configured: seq<Seed>)
    requires ValidSeeds(configured)
    ensures forall i :: 0 <= i < |Seeds(configured)| ==> InRange(Seeds(configured)[i].name, Seeds(configured)[i].role)
  {
    CustomSeedsAreMidRank(configured);
    forall i | 0 <= i < |Seeds(configured)|
      ensures InRange(Seeds(configured)[i].name, Seeds(configured)[i].role)
    {
      if i < 4 {
        assert Seeds(configured)[i] == DEFAULT_ROLES[i];
      } else {
        assert Seeds(configured)[i] == Custom(configured)[i - 4];
      }
    }
  }

  lemma {:induction false} SeedingKeepsRanks(roles: Roles, seeds: seq<Seed>, n: nat)
    requires Ranked(roles) && n <= |seeds|
    requires forall i :: 0 <= i < |seeds| ==> InRange(seeds[i].name, seeds[i].role)
    ensures Ranked(SeedAll(roles, seeds, n).roles)
  {
    if n > 0 {
      SeedingKeepsRanks(roles, seeds, n - 1);
    }
  }

  /** The first start-up lays the floor, whatever the file adds to it. */
  lemma FirstSeedingLaysTheFloor(configured: seq<Seed>)
    requires ValidSeeds(configured)
    ensures Floor(Dir(SeedRoles(map[], configured).roles, map[]))
  {
    var seeds := Seeds(configured);
    SeedsInRange(configured);
    SeedingKeepsRanks(map[], seeds, |seeds|);
    assert forall i :: 0 <= i < 4 ==> seeds[i] == DEFAULT_ROLES[i];
    FreshSeedsAllLand(seeds, 4);
    assert seeds[0].name == USER && seeds[3].name == SUPERADMIN;
    SeedingFrom(map[], seeds, 4, |seeds|);
  }

  /** Entries with distinct names and ranks all land in an empty table. */
  lemma {:induction false} FreshSeedsAllLand(seeds: seq<Seed>, n: nat)
    requires n <= |seeds|
    requires forall i, j :: 0 <= i < j < n ==> seeds[i].name != seeds[j].name && seeds[i].role.rank != seeds[j].role.rank
    ensures var r := SeedAll(map[], seeds, n);
            && r.error.None?
            && (forall i :: 0 <= i < n ==> seeds[i].name in r.roles && r.roles[seeds[i].name] == seeds[i].role)
            && (forall m :: m in r.roles ==> exists i :: 0 <= i < n && seeds[i].name == m)
  {
    if n > 0 {
      FreshSeedsAllLand(seeds, n - 1);
      var before := SeedAll(map[], seeds, n - 1).roles;
      forall m | m in before ensures m != seeds[n - 1].name && before[m].rank != seeds[n - 1].role.rank {
        var i :| 0 <= i < n - 1 && seeds[i].name == m;
        assert before[m] == seeds[i].role;
      }
    }
  }

  /** Later entries leave the result of the earlier ones in place. */
  lemma {:induction false} SeedingFrom(roles: Roles, seeds: seq<Seed>, m: nat, n: nat)
    requires m <= n <= |seeds|
    ensures var a, b := SeedAll(roles, seeds, m), SeedAll(roles, seeds, n);
            forall name :: name in a.roles ==> name in b.roles && b.roles[name] == a.roles[name]
  {
    if m < n {
      SeedingFrom(roles, seeds, m, n - 1);
    }
  }

  // ----- the floor is kept, and so is the last superadmin -----

  ghost predicate SystemRolesKept(roles: Roles, roles': Roles) {
    forall n :: n in roles && roles[n].system ==> n in roles' && roles'[n] == roles[n]
  }

  predicate RoleOp(op: Op) {
    op.OpRoleCreate? || op.OpRoleUpdate? || op.OpRoleDelete?
  }

  lemma UserOpKeepsFloor(d: Dir, op: Op)
    requires Floor(d) && !RoleOp(op) && !op.OpSeedRoles?
    ensures Floor(Apply(d, op)) && Apply(d, op).roles == d.roles
  {
  }

  /** Placing a mid-rank role under a free rank, where no system role stands. */
  lemma PlacingKeepsFloor(roles: Roles, name: string, role: Role)
    requires RolesFloor(roles) && (name in roles ==> !roles[name].system)
    requires !Builtin(name) || name in roles
    requires ValidCustomRank(role.rank) && !RankTaken(roles, role.rank, name)
    ensures RolesFloor(roles[name := role]) && SystemRolesKept(roles, roles[name := role])
  {
  }

  lemma RoleOpKeepsFloor(d: Dir, op: Op)
    requires Floor(d) && RoleOp(op)
    ensures Floor(Apply(d, op)) && SystemRolesKept(d.roles, Apply(d, op).roles) && Apply(d, op).users == d.users
  {
    var d' := Apply(d, op);
    if d' != d && !op.OpRoleDelete? {
      var role := d'.roles[op.name];
      assert d'.roles == d.roles[op.name := role];
      if op.OpRoleUpdate? && op.newRank.None? {
        assert InRange(op.name, d.roles[op.name]);
        assert role.rank == d.roles[op.name].rank;
      }
      PlacingKeepsFloor(d.roles, op.name, role);
    }
  }

  lemma SeedingKeepsFloor(d: Dir, configured: seq<Seed>)
    requires Floor(d) && ValidSeeds(configured)
    ensures var d' := Apply(d, OpSeedRoles(configured));
            Floor(d') && SystemRolesKept(d.roles, d'.roles) && d'.users == d.users
  {
    var seeds := Seeds(configured);
    SeedsInRange(configured);
    SeedingKeepsRanks(d.roles, seeds, |seeds|);
    SeedingNeverOverwrites(d.roles, seeds, |seeds|);
  }

  lemma StepKeepsFloor(d: Dir, op: Op)
    requires Floor(d) && LegalOp(op)
    ensures Floor(Apply(d, op)) && SystemRolesKept(d.roles, Apply(d, op).roles)
  {
    if op.OpSeedRoles? {
      SeedingKeepsFloor(d, op.configured);
    } else if RoleOp(op) {
      RoleOpKeepsFloor(d, op);
    } else {
      UserOpKeepsFloor(d, op);
    }
  }

  /** Where only one user changes, and not the last active superadmin, one remains. */
  lemma OneChangeKeepsSuperAdmin(users: Users, id: UserId, user: User)
    requires HasSuperAdmin(users)
    requires id in ActiveSuperAdmins(users) && !(user.role == SUPERADMIN && user.status == Active) ==>
               |ActiveSuperAdmins(users)| > 1
    ensures HasSuperAdmin(users[id := user])
  {
    var admin :| admin in users && users[admin].role == "superadmin" && users[admin].status == Active;
    assert admin in ActiveSuperAdmins(users);
    OneOther(ActiveSuperAdmins(users), id);
    var other :| other in ActiveSuperAdmins(users) && (other != id || |ActiveSuperAdmins(users)| == 1);
    assert other in users[id := user];
  }

  lemma StepKeepsSuperAdmin(d: Dir, op: Op)
    requires Floor(d) && HasSuperAdmin(d.users)
    ensures HasSuperAdmin(Apply(d, op).users)
  {
    if op.OpUserUpdate? && UserUpdateError(d, op.inp).None? {
      OneChangeKeepsSuperAdmin(d.users, op.inp.id, UpdatedUser(d.users[op.inp.id], op.inp));
    } else if op.OpUserDelete? && UserDeleteError(d, op.caller, op.id).None? {
      OneChangeKeepsSuperAdmin(d.users, op.id, d.users[op.id].(status := Deleted, role := USER));
    } else {
      var admin :| admin in d.users && d.users[admin].role == "superadmin" && d.users[admin].status == Active;
      assert admin in Apply(d, op).users && Apply(d, op).users[admin].(password := 0) == d.users[admin].(password := 0);
    }
  }

  /** A set of two or more has a member besides any given one. */
  lemma OneOther(s: set<UserId>, x: UserId)
    requires s != {}
    ensures exists y :: y in s && (y != x || |s| == 1)
  {
    var y :| y in s;
    if y == x && |s| != 1 {
      assert s == {x} + (s - {x});
      var z :| z in s - {x};
    }
  }

  /** Once an installation has an active superadmin it always has one, whatever the
      operations, whoever calls them, the machine included; and the system roles
      are never changed or deleted. */
  lemma {:induction false} TheLastSuperAdminStays(d: Dir, ops: seq<Op>)
    requires Floor(d) && HasSuperAdmin(d.users)
    requires forall i :: 0 <= i < |ops| ==> LegalOp(ops[i])
    ensures Floor(Run(d, ops)) && HasSuperAdmin(Run(d, ops).users)
    ensures SystemRolesKept(d.roles, Run(d, ops).roles)
    decreases |ops|
  {
    if ops != [] {
      StepKeepsFloor(d, ops[0]);
      StepKeepsSuperAdmin(d, ops[0]);
      TheLastSuperAdminStays(Apply(d, ops[0]), ops[1..]);
    }
  }

  // ----- no escalation -----

  predicate AtLeast(d: Dir, u: UserId, r: int) {
    u in d.users && d.users[u].role in d.roles && d.roles[d.users[u].role].rank >= r
  }

  /** Permissions that some role of rank at most r carries. */
  ghost predicate Within(d: Dir, r: int, p: Permission) {
    exists n :: n in d.roles && d.roles[n].rank <= r && p in d.roles[n].perms
  }

  /** Callers whose rank was at most r at the start, or who did not exist then. */
  predicate ByCoalition(d0: Dir, r: int, caller: Caller) {
    caller.Member? && (caller.id in d0.users ==> !AtLeast(d0, caller.id, r + 1))
  }

  predicate CoalitionOp(d0: Dir, r: int, op: Op) {
    match op
    case OpUserUpdate(inp) => ByCoalition(d0, r, inp.caller)
    case OpUserDelete(caller, _) => ByCoalition(d0, r, caller)
    case OpUserCreate(inp) => ByCoalition(d0, r, inp.caller)
    case OpSetPassword(caller, _, _, _) => ByCoalition(d0, r, caller)
    case OpRoleCreate(caller, _, _, _) => ByCoalition(d0, r, caller)
    case OpRoleUpdate(caller, _, _, _) => ByCoalition(d0, r, caller)
    case OpRoleDelete(caller, _) => ByCoalition(d0, r, caller)
    case OpRegister(_, _) => r >= 1
    case OpSeedRoles(_) => false
    case OpSeedAdmin(_, _) => false
  }

  ghost predicate UpperUsersSame(d0: Dir, d: Dir, r: int) {
    forall u :: AtLeast(d0, u, r) || AtLeast(d, u, r) ==>
                  u in d0.users && u in d.users && d.users[u] == d0.users[u]
  }

  ghost predicate UpperRolesSame(d0: Dir, d: Dir, r: int) {
    forall n :: (n in d0.roles && d0.roles[n].rank >= r) || (n in d.roles && d.roles[n].rank >= r) ==>
                  n in d0.roles && n in d.roles && d.roles[n] == d0.roles[n]
  }

  /** Seen from rank r, nothing above has changed and nothing below has gained. */
  ghost predicate Contained(d0: Dir, d: Dir, r: int) {
    && UpperUsersSame(d0, d, r) && UpperRolesSame(d0, d, r)
    && forall p :: Within(d, r, p) ==> Within(d0, r, p)
  }

  /** A coalition member still has rank at most r when they act. */
  lemma ActorsStayLow(d0: Dir, d: Dir, r: int, caller: Caller)
    requires Floor(d0) && Floor(d) && Contained(d0, d, r) && ByCoalition(d0, r, caller)
    ensures Actor(d, caller).Ok? ==> Actor(d, caller).value.rank <= r
    ensures Actor(d, caller).Ok? ==> forall p :: p in Actor(d, caller).value.perms ==> Within(d, r, p)
  {
    if Actor(d, caller).Ok? {
      var id := caller.id;
      if AtLeast(d, id, r) {
        assert d.users[id] == d0.users[id];
        assert d.roles[d.users[id].role] == d0.roles[d.users[id].role];
      }
    }
  }

  /** Giving a user below r a row that is still below r. */
  lemma LowUserChange(d0: Dir, d: Dir, r: int, id: UserId, user: User)
    requires Contained(d0, d, r) && !AtLeast(d, id, r)
    requires user.role in d.roles && d.roles[user.role].rank < r
    ensures Contained(d0, d.(users := d.users[id := user]), r)
  {
    var d' := d.(users := d.users[id := user]);
    assert !AtLeast(d0, id, r);
    forall p | Within(d', r, p)
      ensures Within(d0, r, p)
    {
      assert Within(d, r, p);
    }
  }

  predicate UserOp(op: Op) {
    op.OpUserUpdate? || op.OpUserDelete? || op.OpUserCreate? || op.OpSetPassword? || op.OpRegister?
  }

  function TargetOf(op: Op): UserId
    requires UserOp(op)
  {
    if op.OpUserUpdate? then op.inp.id else if op.OpUserCreate? then op.newUser.id else op.id
  }

  /** One user has changed, below r before and after. */
  ghost predicate OneLowUser(d: Dir, d': Dir, r: int, id: UserId) {
    && id in d'.users && d' == d.(users := d.users[id := d'.users[id]])
    && !AtLeast(d, id, r)
    && d'.users[id].role in d.roles && d.roles[d'.users[id].role].rank < r
  }

  lemma UpdateTouchesOneLowUser(d0: Dir, d: Dir, r: int, inp: UserInput)
    requires r < 100 && Floor(d0) && Floor(d) && Contained(d0, d, r)
    requires CoalitionOp(d0, r, OpUserUpdate(inp)) && UserUpdate(d, inp) != d
    ensures OneLowUser(d, UserUpdate(d, inp), r, inp.id)
  {
    ActorsStayLow(d0, d, r, inp.caller);
  }

  /** What a user operation by the coalition changes is one user, below r before
      and after. */
  lemma UserOpTouchesOneLowUser(d0: Dir, d: Dir, r: int, op: Op)
    requires r < 100 && Floor(d0) && Floor(d) && Contained(d0, d, r)
    requires UserOp(op) && CoalitionOp(d0, r, op) && Apply(d, op) != d
    ensures OneLowUser(d, Apply(d, op), r, TargetOf(op))
  {
    if op.OpUserUpdate? {
      UpdateTouchesOneLowUser(d0, d, r, op.inp);
    } else if op.OpUserCreate? {
      ActorsStayLow(d0, d, r, op.newUser.caller);
    } else if !op.OpRegister? {
      ActorsStayLow(d0, d, r, op.caller);
    }
    assert InRange(USER, d.roles[USER]);
  }

  lemma CoalitionUserStep(d0: Dir, d: Dir, r: int, op: Op)
    requires r < 100 && Floor(d0) && Floor(d) && Contained(d0, d, r) && CoalitionOp(d0, r, op)
    requires UserOp(op)
    ensures Contained(d0, Apply(d, op), r)
  {
    if Apply(d, op) != d {
      UserOpTouchesOneLowUser(d0, d, r, op);
      LowUserChange(d0, d, r, TargetOf(op), Apply(d, op).users[TargetOf(op)]);
    }
  }

  /** Giving a role below r new contents still below r, or taking it away. */
  lemma LowRoleChange(d0: Dir, d: Dir, r: int, name: string, role: Option<Role>)
    requires Contained(d0, d, r) && (name in d.roles ==> d.roles[name].rank < r)
    requires role.Some? ==> role.value.rank < r && forall p :: p in role.value.perms ==> Within(d, r, p)
    ensures Contained(d0, d.(roles := if role.Some? then d.roles[name := role.value] else d.roles - {name}), r)
  {
    var d' := d.(roles := if role.Some? then d.roles[name := role.value] else d.roles - {name});
    forall u ensures AtLeast(d', u, r) <==> AtLeast(d, u, r) {
    }
    forall p | Within(d', r, p)
      ensures Within(d0, r, p)
    {
      assert Within(d, r, p);
    }
  }

  function RoleNamed(op: Op): string
    requires RoleOp(op)
  {
    op.name
  }

  /** What a role operation by the coalition changes is one role, below r before and
      after, and its permissions are the coalition's own. */
  lemma RoleOpTouchesOneLowRole(d0: Dir, d: Dir, r: int, op: Op) returns (role: Option<Role>)
    requires r < 100 && Floor(d0) && Floor(d) && Contained(d0, d, r)
    requires RoleOp(op) && CoalitionOp(d0, r, op) && Apply(d, op) != d
    ensures var name := RoleNamed(op);
            && Apply(d, op) == d.(roles := if role.Some? then d.roles[name := role.value] else d.roles - {name})
            && (name in d.roles ==> d.roles[name].rank < r)
            && (role.Some? ==> role.value.rank < r && forall p :: p in role.value.perms ==> Within(d, r, p))
  {
    var name := RoleNamed(op);
    ActorsStayLow(d0, d, r, op.caller);
    role := if name in Apply(d, op).roles then Some(Apply(d, op).roles[name]) else None;
  }

  lemma CoalitionRoleStep(d0: Dir, d: Dir, r: int, op: Op)
    requires r < 100 && Floor(d0) && Floor(d) && Contained(d0, d, r) && CoalitionOp(d0, r, op)
    requires RoleOp(op)
    ensures Contained(d0, Apply(d, op), r)
  {
    if Apply(d, op) != d {
      var role := RoleOpTouchesOneLowRole(d0, d, r, op);
      LowRoleChange(d0, d, r, RoleNamed(op), role);
    }
  }

  /** For any r below the top: whatever users of rank at most r do together, nobody
      and no role newly reaches rank r; every user and role at or above r keeps role,
      status, password, rank and permissions; and no permission outside what roles
      up to r carried at the start is ever carried by one of them. */
  lemma {:induction false} NoEscalation(d0: Dir, d: Dir, r: int, ops: seq<Op>)
    requires r < 100 && Floor(d0) && Floor(d) && Contained(d0, d, r)
    requires forall i :: 0 <= i < |ops| ==> CoalitionOp(d0, r, ops[i])
    ensures Contained(d0, Run(d, ops), r)
    decreases |ops|
  {
    if ops != [] {
      StepKeepsFloor(d, ops[0]);
      if RoleOp(ops[0]) {
        CoalitionRoleStep(d0, d, r, ops[0]);
      } else {
        CoalitionUserStep(d0, d, r, ops[0]);
      }
      NoEscalation(d0, Apply(d, ops[0]), r, ops[1..]);
    }
  }

  /** The same from the start of the run. */
  lemma NoCoalitionEscalates(d0: Dir, r: int, ops: seq<Op>)
    requires r < 100 && Floor(d0)
    requires forall i :: 0 <= i < |ops| ==> CoalitionOp(d0, r, ops[i])
    ensures Contained(d0, Run(d0, ops), r)
  {
    NoEscalation(d0, d0, r, ops);
  }
}
