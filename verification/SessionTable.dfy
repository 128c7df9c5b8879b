/** The ga_sessions table, the SQL statements that touch it, and the use cases
    that run those statements one after the other. */
module SessionTable {
  import opened Common
  import opened Identity

  // uuids and SHA-256 digests are only ever compared, so numbers stand for them.
  type FamilyId = nat
  type Hash = nat
  type Time = int

  datatype Session = Session(user: UserId, family: FamilyId, usedAt: Option<Time>, expiresAt: Time, createdAt: Time)
  {
    predicate Spent() {
      usedAt.Some?
    }

    predicate Expired(now: Time) {
      expiresAt <= now
    }

    predicate Live(now: Time) {
      !Spent() && !Expired(now)
    }
  }

  /** Rows keyed by refresh_hash, which the schema declares UNIQUE. */
  type Table = map<Hash, Session>

  /** The WHERE clause of SpendSession. */
  predicate Spendable(t: Table, h: Hash, now: Time) {
    h in t && t[h].usedAt.None? && t[h].expiresAt > now
  }

  function Spend(t: Table, h: Hash, now: Time): Table
    requires h in t
  {
    t[h := t[h].(usedAt := Some(now))]
  }

  function DropFamily(t: Table, f: FamilyId): Table {
    map h | h in t && t[h].family != f :: t[h]
  }

  function DropUser(t: Table, u: UserId): Table {
    map h | h in t && t[h].user != u :: t[h]
  }

  function DropExpired(t: Table, now: Time): Table {
    map h | h in t && t[h].expiresAt >= now :: t[h]
  }

  /** The keys each DELETE matches; their number is the affected-row count. */
  function FamilyRows(t: Table, f: FamilyId): set<Hash> {
    set h | h in t && t[h].family == f
  }

  function UserRows(t: Table, u: UserId): set<Hash> {
    set h | h in t && t[h].user == u
  }

  function ExpiredRows(t: Table, now: Time): set<Hash> {
    set h | h in t && t[h].expiresAt < now
  }

  predicate FamilyEmpty(t: Table, f: FamilyId) {
    forall h :: h in t ==> t[h].family != f
  }

  /** Why a grant was refused. */
  datatype AuthError =
    | SessionNotFound
    | SessionExpired
    | RefreshReused
    | UserNotFound
    | UserBlocked
    | UserDeleted
    | AlreadyExists
    | Forbidden
    | InvalidCredentials
    | PasswordTooWeak
    | StoreFailure  // a database error the repository does not translate

  function StatusError(s: UserStatus): Option<AuthError> {
    match s
    case Blocked => Some(UserBlocked)
    case Deleted => Some(UserDeleted)
    case Active => None
  }

  /** What a successful exchange hands out: the new row's key and the auth time
      signed into the access token. */
  datatype Grant = Grant(refresh: Hash, session: Session, authTime: Time)

  /** The whole of refreshGrant when nothing else runs in between. */
  function Refresh(t: Table, users: map<UserId, UserStatus>, now: Time, ttl: int, presented: Hash, next: Hash)
    : (Table, Result<Grant, AuthError>)
  {
    if presented !in t then
      (t, Err(SessionNotFound))
    else
      var s := t[presented];
      if s.Spent() then
        (DropFamily(t, s.family), Err(RefreshReused))
      else if s.Expired(now) then
        (t, Err(SessionExpired))
      else if s.user !in users then
        (t, Err(UserNotFound))
      else if StatusError(users[s.user]).Some? then
        (t, Err(StatusError(users[s.user]).value))
      else if next in t then
        (t, Err(AlreadyExists))
      else
        var successor := Session(s.user, s.family, None, now + ttl, now);
        (Spend(t, presented, now)[next := successor], Ok(Grant(next, successor, s.createdAt)))
  }

  /** A refresh is granted exactly for an unspent row, not past its expiry, of an active
      user. Then that row is spent now, one unspent row of the same family and user is
      added with a full life, nothing else changes, and what is signed is the time the
      spent row was made. */
  lemma RefreshGranted(t: Table, users: map<UserId, UserStatus>, now: Time, ttl: int, presented: Hash, next: Hash)
    ensures var (t', r) := Refresh(t, users, now, ttl, presented, next);
            && (r.Ok? <==>
                  && presented in t && t[presented].usedAt == None && now < t[presented].expiresAt
                  && t[presented].user in users && users[t[presented].user] == Active && next !in t)
            && (r.Ok? ==>
                  var spent, made := t[presented], Session(t[presented].user, t[presented].family, None, now + ttl, now);
                  && t'.Keys == t.Keys + {next}
                  && t'[presented] == Session(spent.user, spent.family, Some(now), spent.expiresAt, spent.createdAt)
                  && t'[next] == made
                  && (forall h :: h in t && h != presented ==> t'[h] == t[h])
                  && r.value == Grant(next, made, spent.createdAt))
  {
  }

  /** What each refusal says: of the row alone first, in this order, and of its user
      only for a row that could still be exchanged. */
  lemma RefusalsOfRefresh(t: Table, users: map<UserId, UserStatus>, now: Time, ttl: int, presented: Hash, next: Hash)
    ensures var (t', r) := Refresh(t, users, now, ttl, presented, next);
            var usable := presented in t && t[presented].usedAt == None && now < t[presented].expiresAt;
            && (r == Err(SessionNotFound) <==> presented !in t)
            && (r == Err(RefreshReused) <==> presented in t && t[presented].usedAt != None)
            && (r == Err(SessionExpired) <==>
                  presented in t && t[presented].usedAt == None && t[presented].expiresAt <= now)
            && (r == Err(UserNotFound) <==> usable && t[presented].user !in users)
            && (r == Err(UserBlocked) <==> usable && t[presented].user in users && users[t[presented].user] == Blocked)
            && (r == Err(UserDeleted) <==> usable && t[presented].user in users && users[t[presented].user] == Deleted)
            && (r == Err(AlreadyExists) <==>
                  usable && t[presented].user in users && users[t[presented].user] == Active && next in t)
  {
  }

  /** Of the refusals only a replay changes anything: it takes the rows of the family,
      the live one included, and no others. */
  lemma ReplayTakesTheFamily(t: Table, users: map<UserId, UserStatus>, now: Time, ttl: int, presented: Hash, next: Hash)
    ensures var (t', r) := Refresh(t, users, now, ttl, presented, next);
            && (presented in t && t[presented].usedAt != None ==>
                  && (forall h :: h in t' <==> h in t && t[h].family != t[presented].family)
                  && (forall h :: h in t' ==> t'[h] == t[h]))
            && (r.Err? && (presented in t ==> t[presented].usedAt == None) ==> t' == t)
  {
  }

  lemma RowsTaken(t: Table, gone: set<Hash>)
    requires gone <= t.Keys
    ensures |t| == |t - gone| + |gone|
  {
    assert t.Keys == (t - gone).Keys + gone;
  }

  // ----- the repository and the use cases over it -----

  class Store {
    var users: map<UserId, UserStatus>
    var rows: Table
    var now: Time
    const ttl: int

    constructor (ttl: int)
      ensures users == map[] && rows == map[] && now == 0 && this.ttl == ttl
    {
      users, rows, now := map[], map[], 0;
      this.ttl := ttl;
    }

    method CreateSession(user: UserId, family: FamilyId, hash: Hash, expiresAt: Time)
      returns (r: Result<Session, AuthError>)
      modifies this`rows
      ensures r.Ok? <==> user in users && hash !in old(rows)
      ensures r.Ok? ==> r.value == Session(user, family, None, expiresAt, now) && rows == old(rows)[hash := r.value]
      ensures r.Err? ==> rows == old(rows)
                         && r.error == if hash in old(rows) then AlreadyExists else StoreFailure
    {
      if hash in rows {
        return Err(AlreadyExists);
      }
      if user !in users {
        return Err(StoreFailure);  // the foreign key
      }
      var s := Session(user, family, None, expiresAt, now);
      rows := rows[hash := s];
      return Ok(s);
    }

    method GetSessionByRefreshHash(hash: Hash) returns (r: Result<Session, AuthError>)
      ensures r.Ok? <==> hash in rows
      ensures r.Ok? ==> r.value == rows[hash]
      ensures r.Err? ==> r.error == SessionNotFound
    {
      if hash !in rows {
        return Err(SessionNotFound);
      }
      return Ok(rows[hash]);
    }

    method SpendSession(hash: Hash) returns (spent: bool)
      modifies this`rows
      ensures spent <==> hash in old(rows) && old(rows)[hash].usedAt == None && old(rows)[hash].expiresAt > now
      ensures rows.Keys == old(rows).Keys && forall h :: h in rows && h != hash ==> rows[h] == old(rows)[h]
      ensures hash in rows ==>
                rows[hash] == if spent then old(rows)[hash].(usedAt := Some(now)) else old(rows)[hash]
      ensures rows == if spent then Spend(old(rows), hash, now) else old(rows)
    {
      spent := hash in rows && rows[hash].usedAt.None? && rows[hash].expiresAt > now;
      if spent {
        rows := rows[hash := rows[hash].(usedAt := Some(now))];
      }
    }

    /** One transaction: either the presented row is spent and its successor
        inserted, or the table is exactly what it was. */
    method RotateSession(presented: Hash, user: UserId, family: FamilyId, next: Hash, expiresAt: Time)
      returns (r: Result<Session, AuthError>)
      modifies this`rows
      ensures !Spendable(old(rows), presented, now) ==> r == Err(RefreshReused)
      ensures r.Ok? <==> Spendable(old(rows), presented, now) && user in users && next !in old(rows)
      ensures r.Ok? ==> r.value == Session(user, family, None, expiresAt, now)
                        && rows == Spend(old(rows), presented, now)[next := r.value]
      ensures r.Err? ==> rows == old(rows)
      ensures r.Err? && Spendable(old(rows), presented, now) ==>
                r.error == if next in old(rows) then AlreadyExists else StoreFailure
    {
      var before := rows;
      var spent := SpendSession(presented);
      if !spent {
        return Err(RefreshReused);
      }
      r := CreateSession(user, family, next, expiresAt);
      if r.Err? {
        rows := before;  // rollback
      }
    }

    method DeleteSessionFamily(family: FamilyId) returns (n: nat)
      modifies this`rows
      ensures forall h :: h in rows <==> h in old(rows) && old(rows)[h].family != family
      ensures forall h :: h in rows ==> rows[h] == old(rows)[h]
      ensures |old(rows)| == |rows| + n
      ensures rows == DropFamily(old(rows), family)
      ensures n == |FamilyRows(old(rows), family)|
    {
      var gone := FamilyRows(rows, family);
      RowsTaken(rows, gone);
      n := |gone|;
      rows := rows - gone;
    }

    method DeleteUserSessions(user: UserId) returns (n: nat)
      modifies this`rows
      ensures forall h :: h in rows <==> h in old(rows) && old(rows)[h].user != user
      ensures forall h :: h in rows ==> rows[h] == old(rows)[h]
      ensures |old(rows)| == |rows| + n
      ensures rows == DropUser(old(rows), user)
      ensures n == |UserRows(old(rows), user)|
    {
      var gone := UserRows(rows, user);
      RowsTaken(rows, gone);
      n := |gone|;
      rows := rows - gone;
    }

    method DeleteExpiredSessions() returns (n: nat)
      modifies this`rows
      ensures forall h :: h in rows <==> h in old(rows) && old(rows)[h].expiresAt >= now
      ensures forall h :: h in rows ==> rows[h] == old(rows)[h]
      ensures |old(rows)| == |rows| + n
      ensures rows == DropExpired(old(rows), now)
      ensures n == |ExpiredRows(old(rows), now)|
    {
      var gone := ExpiredRows(rows, now);
      RowsTaken(rows, gone);
      n := |gone|;
      rows := rows - gone;
    }

    /** The last third of refreshGrant. Other requests may have run since the
        session was read, so the row can be spent, expired or gone by now: the
        family the session belonged to is then destroyed. */
    method Exchange(presented: Hash, session: Session, next: Hash) returns (r: Result<Grant, AuthError>)
      modifies this`rows
      ensures var spendable := presented in old(rows) && old(rows)[presented].usedAt == None
                               && now < old(rows)[presented].expiresAt;
              && (!spendable ==>
                    && r == Err(RefreshReused)
                    && (forall h :: h in rows <==> h in old(rows) && old(rows)[h].family != session.family)
                    && (forall h :: h in rows ==> rows[h] == old(rows)[h]))
              && (r.Ok? <==> spendable && session.user in users && next !in old(rows))
              && (spendable && r.Err? ==>
                    && rows == old(rows)
                    && r.error == if next in old(rows) then AlreadyExists else StoreFailure)
      ensures r.Ok? ==> var successor := Session(session.user, session.family, None, now + ttl, now);
                        && r.value == Grant(next, successor, session.createdAt)
                        && rows == old(rows)[presented := old(rows)[presented].(usedAt := Some(now))][next := successor]
    {
      var rotated := RotateSession(presented, session.user, session.family, next, now + ttl);
      match rotated {
        case Err(e) =>
          if e == RefreshReused {
            var _ := DeleteSessionFamily(session.family);
          }
          return Err(e);
        case Ok(s) =>
          return Ok(Grant(next, s, session.createdAt));
      }
    }

    /** refreshGrant, statement by statement, with nothing else running. */
    method RefreshGrant(presented: Hash, next: Hash) returns (r: Result<Grant, AuthError>)
      modifies this`rows
      ensures (rows, r) == Refresh(old(rows), users, now, ttl, presented, next)
    {
      var loaded := GetSessionByRefreshHash(presented);
      if loaded.Err? {
        return Err(loaded.error);
      }
      var session := loaded.value;

      if session.Spent() {
        var _ := DeleteSessionFamily(session.family);
        return Err(RefreshReused);
      }
      if session.Expired(now) {
        return Err(SessionExpired);
      }
      if session.user !in users {
        return Err(UserNotFound);
      }
      var refused := StatusError(users[session.user]);
      if refused.Some? {
        return Err(refused.value);
      }
      r := Exchange(presented, session, next);
    }

    /** tokens.Issue: the first row of a new family. */
    method Issue(user: UserId, family: FamilyId, hash: Hash) returns (r: Result<Grant, AuthError>)
      modifies this`rows
      ensures r.Ok? <==> user in users && hash !in old(rows)
      ensures r.Ok? ==> r.value == Grant(hash, Session(user, family, None, now + ttl, now), now)
                        && rows == old(rows)[hash := r.value.session]
      ensures r.Err? ==> rows == old(rows) && r.error == if hash in old(rows) then AlreadyExists else StoreFailure
    {
      var created := CreateSession(user, family, hash, now + ttl);
      match created {
        case Err(e) => return Err(e);
        case Ok(s) => return Ok(Grant(hash, s, now));
      }
    }

    /** auth_password_change: once the new password is accepted the user's sessions are
        gone, and the only row of theirs afterwards is the one handed back; if it cannot
        be inserted they have none. */
    method PasswordChange(user: UserId, passwordMatches: bool, longEnough: bool, family: FamilyId, hash: Hash)
      returns (r: Result<Grant, AuthError>)
      modifies this`rows
      ensures var accepted := user in users && passwordMatches && longEnough;
              && (r.Ok? <==> accepted && (hash !in old(rows) || old(rows)[hash].user == user))
              && (accepted && r.Err? ==>
                    && r.error == AlreadyExists
                    && (forall h :: h in rows <==> h in old(rows) && old(rows)[h].user != user)
                    && (forall h :: h in rows ==> rows[h] == old(rows)[h]))
              && (!accepted ==> r.Err? && rows == old(rows))
      ensures r.Ok? ==> r.value == Grant(hash, Session(user, family, None, now + ttl, now), now)
      ensures r.Ok? ==> hash in rows && rows[hash] == r.value.session
      ensures r.Ok? ==> forall h :: h in rows && rows[h].user == user <==> h == hash
      ensures r.Ok? ==> forall h :: h in old(rows) && old(rows)[h].user != user ==> h in rows && rows[h] == old(rows)[h]
      ensures r.Ok? ==> rows.Keys <= old(rows).Keys + {hash}
      ensures user !in users ==> r == Err(UserNotFound)
      ensures user in users && !passwordMatches ==> r == Err(InvalidCredentials)
      ensures user in users && passwordMatches && !longEnough ==> r == Err(PasswordTooWeak)
    {
      if user !in users {
        return Err(UserNotFound);
      }
      if !passwordMatches {
        return Err(InvalidCredentials);
      }
      if !longEnough {
        return Err(PasswordTooWeak);
      }
      var _ := DeleteUserSessions(user);
      r := Issue(user, family, hash);
    }

    /** auth_revoke: logging out an unknown session is not an error, logging out
        someone else's is, and otherwise the whole family goes. */
    method Revoke(user: UserId, session: Hash) returns (r: Result<nat, AuthError>)
      modifies this`rows
      ensures session !in old(rows) ==> r == Ok(0) && rows == old(rows)
      ensures session in old(rows) && old(rows)[session].user != user ==> r == Err(Forbidden) && rows == old(rows)
      ensures session in old(rows) && old(rows)[session].user == user ==>
                && r.Ok? && r.value >= 1 && |old(rows)| == |rows| + r.value
                && (forall h :: h in rows <==> h in old(rows) && old(rows)[h].family != old(rows)[session].family)
                && (forall h :: h in rows ==> rows[h] == old(rows)[h])
    {
      var loaded := GetSessionByRefreshHash(session);
      if loaded.Err? {
        return Ok(0);
      }
      if loaded.value.user != user {
        return Err(Forbidden);
      }
      assert session in FamilyRows(rows, loaded.value.family);
      var n := DeleteSessionFamily(loaded.value.family);
      return Ok(n);
    }
  }
}
