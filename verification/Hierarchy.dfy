/** Roles, ranks and permissions, and the rules every admin operation asks. */
module Hierarchy {
  import opened Common

  datatype Permission =
    | UsersRead | UsersCreate | UsersUpdate | UsersDelete | PasswordSet
    | SessionsRead | SessionsRevoke | AuditRead | RolesRead | RolesManage
    | Unknown(name: string)

  const ALL_PERMISSIONS: set<Permission> :=
    {UsersRead, UsersCreate, UsersUpdate, UsersDelete, PasswordSet, SessionsRead, SessionsRevoke, AuditRead, RolesRead, RolesManage}

  datatype AdminError =
    | UserNotFound | RoleNotFound | RoleProtected | RoleInUse | AlreadyExists | InvalidInput
    | InsufficientRank | PermissionUnknown | PermissionNotHeld | SelfDemote | LastAdmin | Rejected

  const USER := "user"
  const MANAGER := "manager"
  const ADMIN := "admin"
  const SUPERADMIN := "superadmin"

  const RANK_SUPERADMIN := 100

  datatype Role = Role(rank: int, system: bool, perms: set<Permission>)

  predicate Builtin(name: string) {
    name == USER || name == MANAGER || name == ADMIN || name == SUPERADMIN
  }

  predicate CanManage(actorRank: int, targetRank: int) {
    actorRank >= RANK_SUPERADMIN || actorRank > targetRank
  }

  predicate ValidCustomRank(rank: int) {
    1 <= rank <= 99
  }

  /** ^[a-z0-9][a-z0-9-]{0,38}$ */
  predicate ValidRoleName(name: string) {
    && 1 <= |name| <= 39
    && name[0] != '-'
    && forall i :: 0 <= i < |name| ==> 'a' <= name[i] <= 'z' || '0' <= name[i] <= '9' || name[i] == '-'
  }

  /** The first permission outside the vocabulary, if any, is refused. */
  function ValidatePermissions(perms: seq<Permission>): (r: Option<AdminError>)
    ensures r.None? <==> forall p :: p in perms ==> p in ALL_PERMISSIONS
    ensures r.Some? ==> r.value == PermissionUnknown
  {
    if perms == [] then None
    else if perms[0] !in ALL_PERMISSIONS then assert perms[0] in perms; Some(PermissionUnknown)
    else ValidatePermissions(perms[1..])
  }

  predicate HoldsAll(held: set<Permission>, granted: seq<Permission>)
    ensures HoldsAll(held, granted) <==> forall g :: g in granted ==> g in held
  {
    granted == [] || (granted[0] in held && HoldsAll(held, granted[1..]))
  }

  function MayPlaceInRole(actor: Role, perms: seq<Permission>): (r: Option<AdminError>)
    ensures r.None? <==> forall p :: p in perms ==> p in ALL_PERMISSIONS && p in actor.perms
  {
    match ValidatePermissions(perms)
    case Some(e) => Some(e)
    case None => if HoldsAll(actor.perms, perms) then None else Some(PermissionNotHeld)
  }

  /** The vocabulary is every permission there is a name for. */
  lemma VocabularyIsAllKnown(p: Permission)
    ensures p in ALL_PERMISSIONS <==> !p.Unknown?
  {
  }

  /** An unknown permission is named as the reason before one that is merely not held. */
  lemma PlacementRefusal(actor: Role, perms: seq<Permission>)
    ensures MayPlaceInRole(actor, perms) == Some(PermissionUnknown) <==> exists p :: p in perms && p.Unknown?
    ensures MayPlaceInRole(actor, perms) == Some(PermissionNotHeld)
            <==> (forall p :: p in perms ==> !p.Unknown?) && exists p :: p in perms && p !in actor.perms
  {
  }

  function PermSet(perms: seq<Permission>): set<Permission> {
    set p | p in perms
  }

  /** Each may act on the next. */
  predicate Chain(ranks: seq<int>) {
    forall i :: 0 < i < |ranks| ==> CanManage(ranks[i - 1], ranks[i])
  }

  /** Below the top acting only ever leads downwards, so nobody reaches themselves or an
      equal again, however many act in between. */
  lemma {:induction false} ManagingHasNoCycles(ranks: seq<int>)
    requires |ranks| >= 2 && Chain(ranks) && forall i :: 0 <= i < |ranks| ==> ranks[i] < 100
    ensures ranks[|ranks| - 1] < ranks[0]
    ensures !CanManage(ranks[|ranks| - 1], ranks[0])
  {
    assert CanManage(ranks[|ranks| - 2], ranks[|ranks| - 1]);
    if |ranks| > 2 {
      ManagingHasNoCycles(ranks[..|ranks| - 1]);
    }
  }
}
