/** Deleting expired sessions, compared with never deleting them. Refreshes are
    whole steps here; the two runs differ only in the cleaner. */
module SessionCleaner {
  import opened Common
  import opened Identity
  import opened SessionTable

  datatype Db = Db(now: Time, ttl: int, users: map<UserId, UserStatus>, rows: Table)

  datatype Op =
    | Tick(d: nat)
    | AddUser(u: UserId, status: UserStatus)
    | SetStatus(u: UserId, status: UserStatus)
    | SoftDelete(u: UserId)
    | RevokeAll(u: UserId)
    | RevokeSession(u: UserId, h: Hash)
    | Login(u: UserId, next: Hash, family: FamilyId)
    | PasswordChange(u: UserId, next: Hash, family: FamilyId)
    | RefreshWith(h: Hash, next: Hash)
    | Clean

  function IssueRow(db: Db, u: UserId, next: Hash, family: FamilyId): Table {
    db.rows[next := Session(u, family, None, db.now + db.ttl, db.now)]
  }

  function Apply(db: Db, op: Op): Db {
    match op
    case Tick(d) => db.(now := db.now + d)
    case AddUser(u, status) => if u in db.users then db else db.(users := db.users[u := status])
    case SetStatus(u, status) =>
      if u !in db.users then db
      else if db.users[u] == Active && status != Active then
        db.(users := db.users[u := status], rows := DropUser(db.rows, u))
      else db.(users := db.users[u := status])
    case SoftDelete(u) =>
      if u !in db.users || db.users[u] == Deleted then db
      else db.(users := db.users[u := Deleted], rows := DropUser(db.rows, u))
    case RevokeAll(u) => db.(rows := DropUser(db.rows, u))
    case RevokeSession(u, h) =>
      if h in db.rows && db.rows[h].user == u then db.(rows := DropFamily(db.rows, db.rows[h].family)) else db
    case Login(u, next, family) =>
      if u in db.users && db.users[u] == Active then db.(rows := IssueRow(db, u, next, family)) else db
    case PasswordChange(u, next, family) =>
      if u !in db.users then db
      else var dropped := db.(rows := DropUser(db.rows, u)); dropped.(rows := IssueRow(dropped, u, next, family))
    case RefreshWith(h, next) => db.(rows := Refresh(db.rows, db.users, db.now, db.ttl, h, next).0)
    case Clean => db.(rows := DropExpired(db.rows, db.now))
  }

  function Exec(db: Db, ops: seq<Op>): Db
    decreases |ops|
  {
    if ops == [] then db else Exec(Apply(db, ops[0]), ops[1..])
  }

  function WithoutCleaning(ops: seq<Op>): seq<Op>
    decreases |ops|
  {
    if ops == [] then []
    else if ops[0].Clean? then WithoutCleaning(ops[1..])
    else [ops[0]] + WithoutCleaning(ops[1..])
  }

  /** What takes a stored row away, refreshes apart. */
  predicate Takes(db: Db, op: Op, row: Session) {
    match op
    case Clean => row.expiresAt < db.now
    case RevokeAll(u) => row.user == u
    case SoftDelete(u) => row.user == u && u in db.users && db.users[u] != Deleted
    case SetStatus(u, status) => row.user == u && u in db.users && db.users[u] == Active && status != Active
    case RevokeSession(u, h) => h in db.rows && db.rows[h].user == u && row.family == db.rows[h].family
    case PasswordChange(u, _, _) => row.user == u && u in db.users
    case _ => false
  }

  /** What an operation adds, and when. */
  predicate Adds(db: Db, op: Op, h: Hash, row: Session) {
    match op
    case Login(u, next, family) =>
      h == next && u in db.users && db.users[u] == Active && row == Session(u, family, None, db.now + db.ttl, db.now)
    case PasswordChange(u, next, family) =>
      h == next && u in db.users && row == Session(u, family, None, db.now + db.ttl, db.now)
    case _ => false
  }

  /** So the table after an operation holds exactly what was not taken, as it was, and
      what was added. What a refresh does is said by RefreshGranted and
      ReplayTakesTheFamily. */
  lemma TableAfter(db: Db, op: Op, h: Hash, row: Session)
    requires !op.RefreshWith? && (op.Login? || op.PasswordChange? ==> op.next !in db.rows)
    ensures h in Apply(db, op).rows && Apply(db, op).rows[h] == row
            <==> (h in db.rows && db.rows[h] == row && !Takes(db, op, row)) || Adds(db, op, h, row)
  {
  }

  /** Every hash and family an operation makes up is new. */
  datatype Seen = Seen(hashes: set<Hash>, families: set<FamilyId>)

  predicate Fresh(seen: Seen, op: Op) {
    match op
    case Login(_, next, family) => next !in seen.hashes && family !in seen.families
    case PasswordChange(_, next, family) => next !in seen.hashes && family !in seen.families
    case RefreshWith(_, next) => next !in seen.hashes
    case _ => true
  }

  function See(seen: Seen, op: Op): Seen {
    match op
    case Login(_, next, family) => Seen(seen.hashes + {next}, seen.families + {family})
    case PasswordChange(_, next, family) => Seen(seen.hashes + {next}, seen.families + {family})
    case RefreshWith(_, next) => Seen(seen.hashes + {next}, seen.families)
    case _ => seen
  }

  predicate AllFresh(seen: Seen, ops: seq<Op>)
    decreases |ops|
  {
    ops == [] || (Fresh(seen, ops[0]) && AllFresh(See(seen, ops[0]), ops[1..]))
  }

  function SeeAll(seen: Seen, ops: seq<Op>): Seen
    decreases |ops|
  {
    if ops == [] then seen else SeeAll(See(seen, ops[0]), ops[1..])
  }

  ghost predicate Known(db: Db, seen: Seen) {
    forall h :: h in db.rows ==> h in seen.hashes && db.rows[h].family in seen.families
  }

  /** The uncleaned run a against the cleaned run b: what a has beyond b has
      expired, and what b has beyond a belongs to families that are dead in a. */
  ghost predicate Simulates(a: Db, b: Db) {
    && a.now == b.now && a.ttl == b.ttl && a.users == b.users
    && (forall h :: h in a.rows ==> (h in b.rows && b.rows[h] == a.rows[h]) || a.rows[h].expiresAt < a.now)
    && (forall h :: h in b.rows ==>
          if h in a.rows then a.rows[h] == b.rows[h] else FamilyEmpty(a.rows, b.rows[h].family))
  }

  lemma RefreshKeepsSimulation(a: Db, b: Db, seen: Seen, h: Hash, next: Hash)
    requires Simulates(a, b) && Known(a, seen) && Known(b, seen) && next !in seen.hashes
    ensures Simulates(Apply(a, RefreshWith(h, next)), Apply(b, RefreshWith(h, next)))
  {
  }

  lemma IssueKeepsSimulation(a: Db, b: Db, seen: Seen, u: UserId, next: Hash, family: FamilyId)
    requires Simulates(a, b) && Known(a, seen) && Known(b, seen)
    requires next !in seen.hashes && family !in seen.families
    ensures Simulates(a.(rows := IssueRow(a, u, next, family)), b.(rows := IssueRow(b, u, next, family)))
  {
  }

  /** The operations that delete sessions or change users. */
  lemma DropKeepsSimulation(a: Db, b: Db, op: Op)
    requires Simulates(a, b)
    requires op.SetStatus? || op.SoftDelete? || op.RevokeAll? || op.RevokeSession? || op.AddUser? || op.Tick?
    ensures Simulates(Apply(a, op), Apply(b, op))
  {
    var a', b' := Apply(a, op), Apply(b, op);
    forall h | h in b'.rows && h !in a'.rows
      ensures FamilyEmpty(a'.rows, b'.rows[h].family)
    {
      if h !in a.rows {
        assert FamilyEmpty(a.rows, b.rows[h].family);
      }
    }
  }

  lemma StepKeepsSimulation(a: Db, b: Db, seen: Seen, op: Op)
    requires Simulates(a, b) && Known(a, seen) && Known(b, seen) && Fresh(seen, op)
    ensures Simulates(if op.Clean? then a else Apply(a, op), Apply(b, op))
  {
    match op
    case RefreshWith(h, next) => RefreshKeepsSimulation(a, b, seen, h, next);
    case Login(u, next, family) => IssueKeepsSimulation(a, b, seen, u, next, family);
    case PasswordChange(u, next, family) =>
      var a1, b1 := a.(rows := DropUser(a.rows, u)), b.(rows := DropUser(b.rows, u));
      DropKeepsSimulation(a, b, RevokeAll(u));
      IssueKeepsSimulation(a1, b1, seen, u, next, family);
    case Clean =>
    case _ => DropKeepsSimulation(a, b, op);
  }

  lemma StepKeepsKnown(db: Db, seen: Seen, op: Op)
    requires Known(db, seen)
    ensures Known(Apply(db, op), See(seen, op))
  {
  }

  lemma {:induction false} RunsSimulate(a: Db, b: Db, seen: Seen, ops: seq<Op>)
    requires Simulates(a, b) && Known(a, seen) && Known(b, seen) && AllFresh(seen, ops)
    ensures var seen' := SeeAll(seen, ops);
            var a', b' := Exec(a, WithoutCleaning(ops)), Exec(b, ops);
            Simulates(a', b') && Known(a', seen') && Known(b', seen')
    decreases |ops|
  {
    if ops != [] {
      var op := ops[0];
      StepKeepsSimulation(a, b, seen, op);
      StepKeepsKnown(a, seen, op);
      StepKeepsKnown(b, seen, op);
      RunsSimulate(if op.Clean? then a else Apply(a, op), Apply(b, op), See(seen, op), ops[1..]);
      if !op.Clean? {
        assert ([op] + WithoutCleaning(ops[1..]))[1..] == WithoutCleaning(ops[1..]);
      }
    }
  }

  /** Cleaning takes no live session from anyone: after any history, whatever is
      live without the cleaner is live with it, and any refresh granted without it
      is granted with it, with the same result. */
  lemma CleanerIsSafe(db: Db, seen: Seen, ops: seq<Op>, h: Hash, next: Hash)
    requires Known(db, seen) && AllFresh(seen, ops) && next !in SeeAll(seen, ops).hashes
    ensures var a, b := Exec(db, WithoutCleaning(ops)), Exec(db, ops);
            && (forall g :: g in a.rows && a.rows[g].Live(a.now) ==> g in b.rows && b.rows[g] == a.rows[g])
            && var answer := Refresh(a.rows, a.users, a.now, a.ttl, h, next).1;
               answer.Ok? ==> Refresh(b.rows, b.users, b.now, b.ttl, h, next).1 == answer
  {
    RunsSimulate(db, db, seen, ops);
  }

  /** What cleaning does change. refreshGrant looks at Spent before it looks at
      Expired, so the answer to a refresh changes exactly for rows already past
      their expiry; and for a spent one the reuse alarm no longer goes off. */
  lemma CleaningChangesAnswersOfExpiredRowsOnly(db: Db, h: Hash, next: Hash)
    requires next !in db.rows
    ensures var (t, answer) := Refresh(db.rows, db.users, db.now, db.ttl, h, next);
            var (t', answer') := Refresh(DropExpired(db.rows, db.now), db.users, db.now, db.ttl, h, next);
            && (answer == answer' <==> !(h in db.rows && db.rows[h].expiresAt < db.now))
            && (h in db.rows && db.rows[h].expiresAt < db.now && db.rows[h].Spent() ==>
                  && answer == Err(RefreshReused) && FamilyEmpty(t, db.rows[h].family)
                  && answer' == Err(SessionNotFound) && t' == DropExpired(db.rows, db.now))
  {
  }

  /** A spent token of an expired row, presented again at 200: it raises the reuse alarm
      and takes its live sibling down; after a cleaning it is simply unknown, and the
      sibling lives on. */
  lemma CleaningSilencesTheAlarm()
    ensures var spent, live := Session(1, 9, Some(50), 100, 0), Session(1, 9, None, 300, 50);
            var db := Db(200, 250, map[1 := Active], map[10 := spent, 11 := live]);
            && Refresh(db.rows, db.users, db.now, db.ttl, 10, 12) == (map[], Err(RefreshReused))
            && Refresh(Apply(db, Clean).rows, db.users, db.now, db.ttl, 10, 12) == (map[11 := live], Err(SessionNotFound))
  {
    var spent, live := Session(1, 9, Some(50), 100, 0), Session(1, 9, None, 300, 50);
    var rows := map[10 := spent, 11 := live];
    assert DropFamily(rows, 9) == map[];
    assert DropExpired(rows, 200) == map[11 := live];
  }
}
