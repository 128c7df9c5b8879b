/** The end of admin_user_update: which write is made, and what it is called. */
module UserUpdates {
  import opened Common
  import opened Identity
  import opened UserRepo

  datatype Request = Request(username: Option<string>, email: Option<string>, status: Option<UserStatus>, role: Option<string>)

  /** Something is asked for, and deletion is not. */
  predicate Accepted(req: Request) {
    && (req.username.Some? || req.email.Some? || req.status.Some? || req.role.Some?)
    && req.status != Some(Deleted)
  }

  function PatchOf(req: Request): Patch {
    Patch(req.username, req.email, req.status, req.role)
  }

  function After(before: UserRow, req: Request): UserRow {
    ApplyChange(before, Update(PatchOf(req)))
  }

  /** updateEventFor. */
  function UpdateEventFor(before: UserRow, req: Request): EventName {
    if req.role.Some? && req.role.value != before.role then RoleAssigned
    else if req.status.Some? && req.status.value != before.status then
      if req.status.value == Active then UserUnblocked else UserBlocked
    else UserUpdated
  }

  /** The name against the two row states it stands between. Execute has refused the
      empty role by then, because no such role exists. */
  lemma NameAgainstTheRows(before: UserRow, req: Request)
    requires Accepted(req) && req.role != Some("")
    ensures var after := After(before, req);
            var e := UpdateEventFor(before, req);
            && (e == RoleAssigned <==> after.role != before.role)
            && (e == UserBlocked <==> after.role == before.role && after.status != before.status && after.status == Blocked)
            && (e == UserUnblocked <==> after.role == before.role && after.status != before.status && after.status == Active)
            && (e == UserUpdated <==> after.role == before.role && after.status == before.status)
  {
  }

  /** So a consumer that switches on the name misses a block exactly when the same
      request also moves the user to another role. */
  lemma BlockIsNamedIff(before: UserRow, req: Request)
    requires Accepted(req) && req.role != Some("")
    requires before.status == Active && After(before, req).status != Active
    ensures UpdateEventFor(before, req) == UserBlocked <==> After(before, req).role == before.role
  {
  }

  /** Such a request: a manager is blocked and made a plain user at once, and the event
      only says that a role was assigned. */
  lemma BlockBehindARoleChange()
    ensures var before := UserRow(Some("ann"), None, Active, "manager");
            var req := Request(None, None, Some(Blocked), Some("user"));
            && Accepted(req) && After(before, req) == UserRow(Some("ann"), None, Blocked, "user")
            && UpdateEventFor(before, req) == RoleAssigned
  {
  }

  /** What the request asks for stands in its own column, and the rest is as before. */
  predicate Written(before: UserRow, req: Request, after: UserRow) {
    && (if req.username.Some? && req.username.value != "" then after.username == req.username
        else after.username == before.username)
    && (if req.email.Some? && req.email.value != "" then after.email == req.email else after.email == before.email)
    && (if req.status.Some? then after.status == req.status.value else after.status == before.status)
    && (if req.role.Some? && req.role.value != "" then after.role == req.role.value else after.role == before.role)
  }

  /** The write of Execute: leaving the active status takes the sessions along in
      the same transaction, anything else leaves them alone. */
  method Write(repo: Repo, u: UserId, req: Request) returns (r: Result<UserRow, RepoError>)
    requires repo.Valid() && u in repo.users
    modifies repo
    ensures repo.Valid()
    ensures r.Err? ==> repo.users == old(repo.users) && repo.sessions == old(repo.sessions) && repo.outbox == old(repo.outbox)
    ensures r.Ok? ==>
              var before := old(repo.users)[u];
              && Written(before, req, r.value) && repo.users == old(repo.users)[u := r.value]
              && (before.status == Active && r.value.status != Active ==>
                    && (forall h :: h in repo.sessions <==> h in old(repo.sessions) && old(repo.sessions)[h].user != u)
                    && (forall h :: h in repo.sessions ==> repo.sessions[h] == old(repo.sessions)[h]))
              && (before.status != Active || r.value.status == Active ==> repo.sessions == old(repo.sessions))
              && repo.outbox == if repo.emitEvents
                                then old(repo.outbox)[old(repo.nextSeq) := Event(UpdateEventFor(before, req), u, r.value)]
                                else old(repo.outbox)
    ensures r.Err? <==> RowError(old(repo.users), repo.roles, u, After(old(repo.users)[u], req)).Some?
  {
    UpdateWritesColumns(repo.users[u], PatchOf(req));
    var current := repo.users[u];
    var losesActive := req.status.Some? && current.status == Active && req.status.value != Active;
    var event := Some(UpdateEventFor(current, req));
    if losesActive {
      r := repo.ChangeUser(u, Update(PatchOf(req)), true, event);
    } else {
      r := repo.ChangeUser(u, Update(PatchOf(req)), false, event);
    }
  }
}
