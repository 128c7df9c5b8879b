/** When an admin operation is accepted, said without the order of its checks. */
module AdminAcceptance {
  import opened Common
  import opened Identity
  import opened Hierarchy
  import opened Directory

  /** The machine, or an active member whose stored role exists. */
  predicate Admitted(d: Dir, caller: Caller) {
    caller.Machine? || (caller.id in d.users && d.users[caller.id].status == Active && d.users[caller.id].role in d.roles)
  }

  /** The caller stands strictly above a rank, or at the top. */
  predicate Above(d: Dir, caller: Caller, rank: int) {
    Admitted(d, caller)
    && (caller.Machine? || var own := d.roles[d.users[caller.id].role].rank; own > rank || own >= 100)
  }

  predicate AboveRole(d: Dir, caller: Caller, role: string) {
    role in d.roles && Above(d, caller, d.roles[role].rank)
  }

  /** What the caller may put into a role. */
  predicate MayGrant(d: Dir, caller: Caller, perms: set<Permission>) {
    && (forall p :: p in perms ==> !p.Unknown?)
    && (caller.Machine? || (Admitted(d, caller) && perms <= d.roles[d.users[caller.id].role].perms))
  }

  /** An installation that has an active superadmin would still have one. */
  ghost predicate LeavesASuperAdmin(before: Users, after: Users) {
    HasSuperAdmin(before) ==> HasSuperAdmin(after)
  }

  /** One is left out of a set exactly when it was the only one. */
  lemma OnlyOne(s: set<UserId>, x: UserId)
    requires x in s
    ensures s - {x} == {} <==> |s| <= 1
  {
    assert s == (s - {x}) + {x};
  }

  lemma CountedOrNone(users: Users)
    ensures HasSuperAdmin(users) <==> ActiveSuperAdmins(users) != {}
  {
    if u :| u in users && users[u].role == "superadmin" && users[u].status == Active {
      assert u in ActiveSuperAdmins(users);
    }
  }

  lemma LeavingTheSuperAdmins(users: Users, id: UserId, user: User)
    requires id in users && id in ActiveSuperAdmins(users) && !(user.role == SUPERADMIN && user.status == Active)
    ensures LeavesASuperAdmin(users, users[id := user]) <==> |ActiveSuperAdmins(users)| > 1
  {
    assert ActiveSuperAdmins(users[id := user]) == ActiveSuperAdmins(users) - {id};
    OnlyOne(ActiveSuperAdmins(users), id);
    CountedOrNone(users);
    CountedOrNone(users[id := user]);
  }

  lemma StayingASuperAdmin(users: Users, id: UserId, user: User)
    requires id in users && (id !in ActiveSuperAdmins(users) || (user.role == SUPERADMIN && user.status == Active))
    ensures LeavesASuperAdmin(users, users[id := user])
  {
    CountedOrNone(users);
    CountedOrNone(users[id := user]);
    if u :| u in ActiveSuperAdmins(users) {
      assert u in ActiveSuperAdmins(users[id := user]);
    }
  }

  /** A user update is accepted exactly when the target exists, the caller is above it
      and above the role it is moved to, does not reassign itself, the identifiers are
      good and free, and a superadmin remains. */
  lemma UserUpdateAcceptedIff(d: Dir, inp: UserInput)
    ensures UserUpdateError(d, inp).None?
            <==> && inp.id in d.users
                 && var user := d.users[inp.id];
                    var moves := inp.role.Some? && inp.role.value != user.role;
                    && AboveRole(d, inp.caller, user.role)
                    && (moves ==> AboveRole(d, inp.caller, inp.role.value) && inp.caller != Member(inp.id))
                    && inp.identifiersValid && inp.storeAccepts
                    && LeavesASuperAdmin(d.users, d.users[inp.id := Moved(user, inp)])
  {
    if inp.id in d.users {
      var user := d.users[inp.id];
      if inp.id in ActiveSuperAdmins(d.users) && !(Moved(user, inp).role == SUPERADMIN && Moved(user, inp).status == Active) {
        LeavingTheSuperAdmins(d.users, inp.id, Moved(user, inp));
      } else {
        StayingASuperAdmin(d.users, inp.id, Moved(user, inp));
      }
    }
  }

  /** And which reason is given when several apply: the caller is looked at first, then
      the target, the identifiers, the role to be given and the last superadmin. */
  lemma UserUpdateRefusal(d: Dir, inp: UserInput)
    requires inp.id in d.users
    ensures var user := d.users[inp.id];
            var moves := inp.role.Some? && inp.role.value != user.role;
            UserUpdateError(d, inp)
            == if !Admitted(d, inp.caller) then Some(UserNotFound)
               else if moves && inp.caller == Member(inp.id) then Some(SelfDemote)
               else if user.role !in d.roles then Some(RoleNotFound)
               else if !AboveRole(d, inp.caller, user.role) then Some(InsufficientRank)
               else if !inp.identifiersValid then Some(Rejected)
               else if moves && inp.role.value !in d.roles then Some(RoleNotFound)
               else if moves && !AboveRole(d, inp.caller, inp.role.value) then Some(InsufficientRank)
               else if !LeavesASuperAdmin(d.users, d.users[inp.id := Moved(user, inp)]) then Some(LastAdmin)
               else if !inp.storeAccepts then Some(Rejected)
               else None
  {
    var user := d.users[inp.id];
    if inp.id in ActiveSuperAdmins(d.users) && !(Moved(user, inp).role == SUPERADMIN && Moved(user, inp).status == Active) {
      LeavingTheSuperAdmins(d.users, inp.id, Moved(user, inp));
    } else {
      StayingASuperAdmin(d.users, inp.id, Moved(user, inp));
    }
  }

  /** The user with the role and status asked for. */
  function Moved(user: User, inp: UserInput): User {
    User(if inp.role.Some? then inp.role.value else user.role,
         if inp.status.Some? then inp.status.value else user.status, user.password)
  }

  /** A deletion is accepted exactly when the user is deleted already, or the caller is
      another one, above them, and a superadmin remains. */
  lemma UserDeleteAcceptedIff(d: Dir, caller: Caller, id: UserId)
    ensures UserDeleteError(d, caller, id).None?
            <==> && id in d.users
                 && (d.users[id].status == Deleted
                     || (&& caller != Member(id) && AboveRole(d, caller, d.users[id].role)
                         && LeavesASuperAdmin(d.users, d.users[id := d.users[id].(status := Deleted, role := USER)])))
  {
    if id in d.users {
      var gone := d.users[id].(status := Deleted, role := USER);
      if id in ActiveSuperAdmins(d.users) {
        LeavingTheSuperAdmins(d.users, id, gone);
      } else {
        StayingASuperAdmin(d.users, id, gone);
      }
    }
  }

  lemma UserDeleteRefusal(d: Dir, caller: Caller, id: UserId)
    requires id in d.users && d.users[id].status != Deleted
    ensures var user := d.users[id];
            UserDeleteError(d, caller, id)
            == if caller == Member(id) then Some(SelfDemote)
               else if !Admitted(d, caller) then Some(UserNotFound)
               else if user.role !in d.roles then Some(RoleNotFound)
               else if !AboveRole(d, caller, user.role) then Some(InsufficientRank)
               else if !LeavesASuperAdmin(d.users, d.users[id := user.(status := Deleted, role := "user")]) then Some(LastAdmin)
               else None
  {
    var gone := d.users[id].(status := Deleted, role := USER);
    if id in ActiveSuperAdmins(d.users) {
      LeavingTheSuperAdmins(d.users, id, gone);
    } else {
      StayingASuperAdmin(d.users, id, gone);
    }
  }

  /** Unknown targets, whoever asks. */
  lemma UnknownTargets(d: Dir, inp: UserInput, caller: Caller, id: UserId, name: string, rank: Option<int>,
                       perms: Option<seq<Permission>>, longEnough: bool)
    ensures inp.id !in d.users ==> UserUpdateError(d, inp) == Some(UserNotFound)
    ensures id !in d.users ==> UserDeleteError(d, caller, id) == Some(UserNotFound)
    ensures id !in d.users ==> SetPasswordError(d, caller, id, longEnough) == Some(UserNotFound)
    ensures name !in d.roles ==> RoleUpdateError(d, caller, name, rank, perms) == Some(RoleNotFound)
    ensures name !in d.roles ==> RoleDeleteError(d, caller, name) == Some(RoleNotFound)
  {
  }

  lemma UserCreateAcceptedIff(d: Dir, inp: NewUser)
    ensures UserCreateError(d, inp).None?
            <==> && inp.inputValid && inp.storeAccepts && inp.id !in d.users
                 && AboveRole(d, inp.caller, if inp.role == "" then "user" else inp.role)
  {
  }

  lemma UserCreateRefusal(d: Dir, inp: NewUser)
    ensures var role := if inp.role == "" then "user" else inp.role;
            UserCreateError(d, inp)
            == if !inp.inputValid then Some(Rejected)
               else if role !in d.roles then Some(RoleNotFound)
               else if !Admitted(d, inp.caller) then Some(UserNotFound)
               else if !AboveRole(d, inp.caller, role) then Some(InsufficientRank)
               else if !inp.storeAccepts || inp.id in d.users then Some(Rejected)
               else None
  {
  }

  /** Setting someone's password asks for the same rank as any other change. */
  lemma SetPasswordRefusal(d: Dir, caller: Caller, id: UserId, longEnough: bool)
    requires id in d.users
    ensures SetPasswordError(d, caller, id, longEnough)
            == if !Admitted(d, caller) then Some(UserNotFound)
               else if d.users[id].role !in d.roles then Some(RoleNotFound)
               else if !AboveRole(d, caller, d.users[id].role) then Some(InsufficientRank)
               else if !longEnough then Some(Rejected)
               else None
  {
  }

  /** Lower-case letters, digits and inner dashes, 39 at most, and none of the four names
      the service owns. */
  predicate FreeName(name: string) {
    && 1 <= |name| <= 39 && name[0] != '-'
    && (forall i :: 0 <= i < |name| ==> 'a' <= name[i] <= 'z' || '0' <= name[i] <= '9' || name[i] == '-')
    && name !in {"user", "manager", "admin", "superadmin"}
  }

  predicate OthersRank(roles: Roles, rank: int, but: string) {
    exists n :: n in roles && n != but && roles[n].rank == rank
  }

  /** A role is created exactly when its name is new, well formed and not a built-in
      one, its rank is a free custom rank below the caller, and the caller may grant
      all that is in it. */
  lemma RoleCreateAcceptedIff(d: Dir, caller: Caller, name: string, rank: int, perms: seq<Permission>)
    ensures RoleCreateError(d, caller, name, rank, perms).None?
            <==> && FreeName(name) && name !in d.roles
                 && 1 <= rank <= 99 && !OthersRank(d.roles, rank, name)
                 && Above(d, caller, rank) && MayGrant(d, caller, set p | p in perms)
  {
    RoleCreateRefusal(d, caller, name, rank, perms);
  }

  lemma RoleCreateRefusal(d: Dir, caller: Caller, name: string, rank: int, perms: seq<Permission>)
    ensures RoleCreateError(d, caller, name, rank, perms)
            == if !FreeName(name) || !(1 <= rank <= 99) then Some(InvalidInput)
               else if !Admitted(d, caller) then Some(UserNotFound)
               else if !Above(d, caller, rank) then Some(InsufficientRank)
               else if exists p :: p in perms && p.Unknown? then Some(PermissionUnknown)
               else if !MayGrant(d, caller, set p | p in perms) then Some(PermissionNotHeld)
               else if name in d.roles || OthersRank(d.roles, rank, name) then Some(AlreadyExists)
               else None
  {
    GrantIsPlacement(d, caller, perms);
    if RankTaken(d.roles, rank, name) {
      var n :| n in d.roles && n != name && d.roles[n].rank == rank;
    }
  }

  lemma GrantIsPlacement(d: Dir, caller: Caller, perms: seq<Permission>)
    ensures Actor(d, caller).Ok? <==> Admitted(d, caller)
    ensures Actor(d, caller).Err? ==> Actor(d, caller).error == UserNotFound
    ensures Actor(d, caller).Ok? ==>
              MayPlaceInRole(Actor(d, caller).value, perms)
              == if exists p :: p in perms && p.Unknown? then Some(PermissionUnknown)
                 else if !MayGrant(d, caller, set p | p in perms) then Some(PermissionNotHeld)
                 else None
  {
    if Actor(d, caller).Ok? {
      PlacementRefusal(Actor(d, caller).value, perms);
    }
  }

  /** A role is changed exactly when it is a custom one below the caller and stays
      below, under a free custom rank, with permissions the caller may grant. */
  lemma RoleUpdateAcceptedIff(d: Dir, caller: Caller, name: string, rank: Option<int>, perms: Option<seq<Permission>>)
    ensures RoleUpdateError(d, caller, name, rank, perms).None?
            <==> && name in d.roles && !d.roles[name].system && AboveRole(d, caller, name)
                 && (rank.Some? ==> && 1 <= rank.value <= 99 && Above(d, caller, rank.value)
                                    && !OthersRank(d.roles, rank.value, name))
                 && (perms.Some? ==> MayGrant(d, caller, set p | p in perms.value))
  {
    if name in d.roles {
      RoleUpdateRefusal(d, caller, name, rank, perms);
    }
  }

  lemma RoleUpdateRefusal(d: Dir, caller: Caller, name: string, rank: Option<int>, perms: Option<seq<Permission>>)
    requires name in d.roles
    ensures RoleUpdateError(d, caller, name, rank, perms)
            == if d.roles[name].system then Some(RoleProtected)
               else if !Admitted(d, caller) then Some(UserNotFound)
               else if !AboveRole(d, caller, name) then Some(InsufficientRank)
               else if rank.Some? && !(1 <= rank.value <= 99) then Some(InvalidInput)
               else if rank.Some? && !Above(d, caller, rank.value) then Some(InsufficientRank)
               else if perms.Some? && exists p :: p in perms.value && p.Unknown? then Some(PermissionUnknown)
               else if perms.Some? && !MayGrant(d, caller, set p | p in perms.value) then Some(PermissionNotHeld)
               else if rank.Some? && OthersRank(d.roles, rank.value, name) then Some(AlreadyExists)
               else None
  {
    if perms.Some? {
      GrantIsPlacement(d, caller, perms.value);
    }
  }

  lemma RoleDeleteAcceptedIff(d: Dir, caller: Caller, name: string)
    ensures RoleDeleteError(d, caller, name).None?
            <==> && name in d.roles && !d.roles[name].system && AboveRole(d, caller, name)
                 && forall u :: u in d.users ==> d.users[u].role != name
  {
    if name in d.roles {
      RoleDeleteRefusal(d, caller, name);
    }
  }

  lemma RoleDeleteRefusal(d: Dir, caller: Caller, name: string)
    requires name in d.roles
    ensures RoleDeleteError(d, caller, name)
            == if d.roles[name].system then Some(RoleProtected)
               else if !Admitted(d, caller) then Some(UserNotFound)
               else if !AboveRole(d, caller, name) then Some(InsufficientRank)
               else if exists u :: u in d.users && d.users[u].role == name then Some(RoleInUse)
               else None
  {
    if RoleHeld(d.users, name) {
      var u :| u in d.users && d.users[u].role == name;
    }
  }
}
