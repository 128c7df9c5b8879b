/** The ga_users writes: a user row, the sessions that go with it and the outbox
    event announcing it change in one transaction or not at all. */
module UserRepo {
  import opened Common
  import opened Identity
  import ST = SessionTable

  /** The columns an event carries. None is SQL NULL. */
  datatype UserRow = UserRow(username: Option<string>, email: Option<string>, status: UserStatus, role: string)

  datatype EventName = UserCreated | UserUpdated | UserBlocked | UserUnblocked | UserDeleted | PasswordChanged | RoleAssigned

  datatype Event = Event(name: EventName, user: UserId, row: UserRow)

  /** A partial update; an absent field leaves the column alone. */
  datatype Patch = Patch(username: Option<string>, email: Option<string>, status: Option<UserStatus>, role: Option<string>)

  datatype Change =
    | Update(patch: Patch)
    | SetPassword
    | SoftDelete

  /** The empty string is written as NULL. */
  function Text(s: string): Option<string> {
    if s == "" then None else Some(s)
  }

  function Coalesce(given: Option<string>, column: Option<string>): Option<string> {
    if given.Some? && given.value != "" then given else column
  }

  function ApplyChange(row: UserRow, c: Change): UserRow {
    match c
    case Update(p) =>
      UserRow(Coalesce(p.username, row.username), Coalesce(p.email, row.email),
              if p.status.Some? then p.status.value else row.status,
              if p.role.Some? && p.role.value != "" then p.role.value else row.role)
    case SetPassword => row
    case SoftDelete => UserRow(None, None, Deleted, "user")
  }

  /** Column by column: a text that is given and not empty is written, and an absent or
      empty one leaves its column alone; so can no identifier be cleared by an update. */
  lemma UpdateWritesColumns(row: UserRow, p: Patch)
    ensures var after := ApplyChange(row, Update(p));
            && (p.username.Some? && p.username.value != "" ==> after.username == p.username)
            && (p.username.None? || p.username.value == "" ==> after.username == row.username)
            && (p.email.Some? && p.email.value != "" ==> after.email == p.email)
            && (p.email.None? || p.email.value == "" ==> after.email == row.email)
            && (p.status.Some? ==> after.status == p.status.value)
            && (p.status.None? ==> after.status == row.status)
            && (p.role.Some? && p.role.value != "" ==> after.role == p.role.value)
            && (p.role.None? || p.role.value == "" ==> after.role == row.role)
  {
  }

  /** A soft delete frees both identifiers and takes the role; a new password shows in
      none of the columns that are announced. */
  lemma DeleteAndPasswordWriteColumns(row: UserRow)
    ensures ApplyChange(row, SoftDelete).username == None && ApplyChange(row, SoftDelete).email == None
    ensures ApplyChange(row, SoftDelete).status == Deleted && ApplyChange(row, SoftDelete).role == "user"
    ensures ApplyChange(row, SetPassword) == row
  {
  }

  type Users = map<UserId, UserRow>

  predicate IdentifierPresent(row: UserRow) {
    row.status == Deleted || row.username.Some? || row.email.Some?
  }

  predicate Clash(a: UserRow, b: UserRow) {
    (a.username.Some? && a.username == b.username) || (a.email.Some? && a.email == b.email)
  }

  /** The table constraints: UNIQUE identifiers, one identifier unless deleted,
      and the foreign key into the roles. */
  ghost predicate Consistent(users: Users, roles: set<string>) {
    && (forall u :: u in users ==> IdentifierPresent(users[u]) && users[u].role in roles)
    && (forall u, v :: u in users && v in users && u != v ==> !Clash(users[u], users[v]))
  }

  predicate Taken(users: Users, u: UserId, row: UserRow) {
    exists v :: v in users && v != u && Clash(row, users[v])
  }

  datatype RepoError = NotFound | AlreadyExists | ConstraintViolation

  function RowError(users: Users, roles: set<string>, u: UserId, row: UserRow): Option<RepoError> {
    if Taken(users, u, row) then Some(AlreadyExists)
    else if !IdentifierPresent(row) || row.role !in roles then Some(ConstraintViolation)
    else None
  }

  /** A row is refused exactly when it would break a constraint. */
  lemma RowErrorIsExact(users: Users, roles: set<string>, u: UserId, row: UserRow)
    requires Consistent(users, roles)
    ensures RowError(users, roles, u, row).None? <==> Consistent(users[u := row], roles)
  {
    var users' := users[u := row];
    assert users'[u] == row;
    if Taken(users, u, row) {
      var v :| v in users && v != u && Clash(row, users[v]);
      assert users'[v] == users[v];
    }
  }

  /** Which refusal: a taken identifier first, then a missing one or an unknown role. */
  lemma RowErrorNames(users: Users, roles: set<string>, u: UserId, row: UserRow)
    ensures RowError(users, roles, u, row) == Some(AlreadyExists)
            <==> exists v :: v in users && v != u
                   && ((row.username != None && users[v].username == row.username)
                       || (row.email != None && users[v].email == row.email))
    ensures RowError(users, roles, u, row) == Some(ConstraintViolation)
            <==> && (forall v :: v in users && v != u ==>
                       && (row.username != None ==> users[v].username != row.username)
                       && (row.email != None ==> users[v].email != row.email))
                 && ((row.status != Deleted && row.username == None && row.email == None) || row.role !in roles)
    ensures RowError(users, roles, u, row) != Some(NotFound)
  {
    if Taken(users, u, row) {
      var v :| v in users && v != u && Clash(row, users[v]);
    } else {
      forall v | v in users && v != u
        ensures !Clash(row, users[v])
      {
      }
    }
  }

  /** The outbox as the writers see it: events by sequence number. */
  type Outbox = map<nat, Event>

  class Repo {
    var users: Users
    var sessions: ST.Table
    var outbox: Outbox
    var nextSeq: nat
    const roles: set<string>
    const emitEvents: bool

    ghost predicate Valid()
      reads this
    {
      && Consistent(users, roles)
      && forall q :: q in outbox ==> q < nextSeq
    }

    constructor (roles: set<string>, emitEvents: bool)
      ensures Valid() && users == map[] && sessions == map[] && outbox == map[]
      ensures this.roles == roles && this.emitEvents == emitEvents
    {
      users, sessions, outbox, nextSeq := map[], map[], map[], 0;
      this.roles, this.emitEvents := roles, emitEvents;
    }

    /** insertEvent: inside the caller's transaction. */
    method InsertEvent(name: Option<EventName>, u: UserId, row: UserRow)
      requires Valid()
      modifies this`outbox, this`nextSeq
      ensures Valid()
      ensures outbox == if name.Some? && emitEvents then old(outbox)[old(nextSeq) := Event(name.value, u, row)]
                        else old(outbox)
      ensures old(nextSeq) <= nextSeq
    {
      if name.Some? && emitEvents {
        outbox := outbox[nextSeq := Event(name.value, u, row)];
        nextSeq := nextSeq + 1;
      }
    }

    method CreateUser(u: UserId, username: string, email: string, role: string, status: Option<UserStatus>,
                      event: Option<EventName>)
      returns (r: Result<UserRow, RepoError>)
      requires Valid() && u !in users
      modifies this`users, this`outbox, this`nextSeq
      ensures Valid()
      ensures var row := UserRow(if username == "" then None else Some(username), if email == "" then None else Some(email),
                                 if status.Some? then status.value else Active, if role == "" then "user" else role);
              match RowError(old(users), roles, u, row)
              case Some(e) => r == Err(e) && users == old(users) && outbox == old(outbox)
              case None =>
                && r == Ok(row) && users == old(users)[u := row]
                && outbox == if event.Some? && emitEvents then old(outbox)[old(nextSeq) := Event(event.value, u, row)]
                             else old(outbox)
    {
      var row := UserRow(Text(username), Text(email), if status.Some? then status.value else Active,
                         if role == "" then "user" else role);
      var refused := RowError(users, roles, u, row);
      if refused.Some? {
        return Err(refused.value);
      }
      RowErrorIsExact(users, roles, u, row);
      users := users[u := row];
      InsertEvent(event, u, row);
      return Ok(row);
    }

    /** UpdateUser, UpdateUserAndRevokeSessions, SetPasswordAndRevokeSessions and
        SoftDeleteUser are this one transaction with different statements in it. */
    method ChangeUser(u: UserId, change: Change, revoke: bool, event: Option<EventName>)
      returns (r: Result<UserRow, RepoError>)
      requires Valid()
      modifies this`users, this`sessions, this`outbox, this`nextSeq
      ensures Valid()
      ensures u !in old(users) ==> r == Err(NotFound)
      ensures u in old(users) ==>
                match RowError(old(users), roles, u, ApplyChange(old(users)[u], change))
                case Some(e) => r == Err(e)
                case None => r == Ok(ApplyChange(old(users)[u], change))
      ensures r.Ok? ==>
                && users == old(users)[u := r.value]
                && (revoke ==> forall h :: h in sessions <==> h in old(sessions) && old(sessions)[h].user != u)
                && (revoke ==> forall h :: h in sessions ==> sessions[h] == old(sessions)[h])
                && (!revoke ==> sessions == old(sessions))
                && outbox == if event.Some? && emitEvents
                             then old(outbox)[old(nextSeq) := Event(event.value, u, r.value)]
                             else old(outbox)
      ensures r.Err? ==> users == old(users) && sessions == old(sessions) && outbox == old(outbox)
    {
      if u !in users {
        return Err(NotFound);
      }
      var row := ApplyChange(users[u], change);
      var refused := RowError(users, roles, u, row);
      if refused.Some? {
        return Err(refused.value);
      }
      RowErrorIsExact(users, roles, u, row);
      users := users[u := row];
      if revoke {
        sessions := sessions - ST.UserRows(sessions, u);
      }
      InsertEvent(event, u, row);
      return Ok(row);
    }
  }
}
