/** Refresh as a concurrent protocol. Every SQL statement or transaction is one
    step; logins, logouts, blocks, deletions, password changes, the cleaner and
    other refreshes run between the steps of a request. History variables record
    every row ever inserted, so the theorems can speak about whole runs. */
module RefreshProtocol {
  import opened Common
  import opened Identity
  import opened SessionTable

  type ReqId = nat

  /** How a refresh ended. */
  datatype Answer =
    | Refused(error: AuthError)
    | Reuse(family: FamilyId)
    | Granted(next: Hash, authTime: Time)

  /** Where an in-flight request stands. */
  datatype Pc =
    | Begun(hash: Hash, start: Time)                      // before the session is read
    | SessionRead(hash: Hash, start: Time, sess: Session) // live when read; before the user is read
    | UserRead(hash: Hash, start: Time, sess: Session)    // user active when read; before the rotation
    | Destroying(hash: Hash, sess: Session)               // reuse seen; before the family is deleted
    | Answered(hash: Hash, answer: Answer)
    | Issuing(user: UserId, start: Time)                  // credentials accepted; before the insert
    | Revoking(family: FamilyId)                          // session found; before the family is deleted

  /** What is remembered of a row for ever: the row as inserted, its place in its
      family, the row spent to make it, and the auth time signed alongside it. */
  datatype Birth = Birth(row: Session, pos: nat, parent: Option<Hash>, authTime: Time)

  datatype State = State(
    now: Time,
    ttl: int,
    users: map<UserId, UserStatus>,
    rows: Table,
    reqs: map<ReqId, Pc>,
    born: map<Hash, Birth>,            // history: every row ever inserted
    chains: map<FamilyId, seq<Hash>>)  // history: a family's rows in order of insertion

  datatype Step =
    | Tick(d: nat)
    | AddUser(u: UserId, status: UserStatus)
    | SetStatus(u: UserId, status: UserStatus)
    | SoftDelete(u: UserId)
    | RevokeAll(u: UserId)
    | Clean
    | BeginRefresh(r: ReqId, hash: Hash)
    | ReadSession(r: ReqId)
    | ReadUser(r: ReqId)
    | Rotate(r: ReqId, next: Hash)
    | Destroy(r: ReqId)
    | BeginLogin(r: ReqId, u: UserId)
    | BeginPasswordChange(r: ReqId, u: UserId)
    | Issue(r: ReqId, next: Hash, family: FamilyId)
    | BeginRevoke(r: ReqId, u: UserId, hash: Hash)
    | Revoke(r: ReqId)
    | Abandon(r: ReqId)

  function Init(ttl: int): State {
    State(0, ttl, map[], map[], map[], map[], map[])
  }

  /** What a step needs: the request is at that point, the ids it makes up were
      never used, and a user row exists for what refers to it. */
  predicate Enabled(s: State, st: Step) {
    match st
    case Tick(_) => true
    case AddUser(u, _) => u !in s.users
    case SetStatus(u, _) => u in s.users
    case SoftDelete(u) => u in s.users
    case RevokeAll(_) => true
    case Clean => true
    case BeginRefresh(r, _) => r !in s.reqs
    case ReadSession(r) => r in s.reqs && s.reqs[r].Begun?
    case ReadUser(r) => r in s.reqs && s.reqs[r].SessionRead?
    case Rotate(r, next) => r in s.reqs && s.reqs[r].UserRead? && next !in s.born
    case Destroy(r) => r in s.reqs && s.reqs[r].Destroying?
    case BeginLogin(r, u) => r !in s.reqs && u in s.users && s.users[u] == Active
    case BeginPasswordChange(r, u) => r !in s.reqs && u in s.users
    case Issue(r, next, family) => r in s.reqs && s.reqs[r].Issuing? && next !in s.born && family !in s.chains
    case BeginRevoke(r, u, h) => r !in s.reqs && h in s.rows && s.rows[h].user == u
    case Revoke(r) => r in s.reqs && s.reqs[r].Revoking?
    case Abandon(r) => r in s.reqs && !s.reqs[r].Answered?
  }

  function Next(s: State, st: Step): State
    requires Enabled(s, st)
  {
    match st
    case Tick(d) => s.(now := s.now + d)
    case AddUser(u, status) => s.(users := s.users[u := status])
    case SetStatus(u, status) => SetStatusStep(s, u, status)
    case SoftDelete(u) =>
      if s.users[u] == Deleted then s
      else s.(users := s.users[u := Deleted], rows := DropUser(s.rows, u))
    case RevokeAll(u) => s.(rows := DropUser(s.rows, u))
    case Clean => s.(rows := DropExpired(s.rows, s.now))
    case BeginRefresh(r, h) => s.(reqs := s.reqs[r := Begun(h, s.now)])
    case ReadSession(r) => s.(reqs := s.reqs[r := AfterSessionRead(s, s.reqs[r].hash, s.reqs[r].start)])
    case ReadUser(r) => s.(reqs := s.reqs[r := AfterUserRead(s, s.reqs[r])])
    case Rotate(r, next) => RotateStep(s, r, next)
    case Destroy(r) =>
      var f := s.reqs[r].sess.family;
      s.(rows := DropFamily(s.rows, f), reqs := s.reqs[r := Answered(s.reqs[r].hash, Reuse(f))])
    case BeginLogin(r, u) => s.(reqs := s.reqs[r := Issuing(u, s.now)])
    case BeginPasswordChange(r, u) => s.(rows := DropUser(s.rows, u), reqs := s.reqs[r := Issuing(u, s.now)])
    case Issue(r, next, family) => IssueStep(s, r, next, family)
    case BeginRevoke(r, _, h) => s.(reqs := s.reqs[r := Revoking(s.rows[h].family)])
    case Revoke(r) => s.(rows := DropFamily(s.rows, s.reqs[r].family), reqs := s.reqs - {r})
    case Abandon(r) => s.(reqs := s.reqs - {r})
  }

  /** admin_user_update: only a change away from active drops the sessions. */
  function SetStatusStep(s: State, u: UserId, status: UserStatus): State
    requires u in s.users
  {
    var losesActive := s.users[u] == Active && status != Active;
    s.(users := s.users[u := status], rows := if losesActive then DropUser(s.rows, u) else s.rows)
  }

  function AfterSessionRead(s: State, h: Hash, start: Time): Pc {
    if h !in s.rows then Answered(h, Refused(SessionNotFound))
    else if s.rows[h].Spent() then Destroying(h, s.rows[h])
    else if s.rows[h].Expired(start) then Answered(h, Refused(SessionExpired))
    else SessionRead(h, start, s.rows[h])
  }

  function AfterUserRead(s: State, pc: Pc): Pc
    requires pc.SessionRead?
  {
    if pc.sess.user !in s.users then Answered(pc.hash, Refused(UserNotFound))
    else match StatusError(s.users[pc.sess.user])
         case Some(e) => Answered(pc.hash, Refused(e))
         case None => UserRead(pc.hash, pc.start, pc.sess)
  }

  /** Whether the rotation of request r would commit. */
  predicate Commits(s: State, r: ReqId) {
    r in s.reqs && s.reqs[r].UserRead? && Spendable(s.rows, s.reqs[r].hash, s.now)
  }

  function RotateStep(s: State, r: ReqId, next: Hash): State
    requires r in s.reqs && s.reqs[r].UserRead?
  {
    var pc := s.reqs[r];
    var f := pc.sess.family;
    if !Commits(s, r) then
      s.(reqs := s.reqs[r := Destroying(pc.hash, pc.sess)])
    else
      var row := Session(pc.sess.user, f, None, pc.start + s.ttl, s.now);
      var chain := if f in s.chains then s.chains[f] else [];
      s.(rows := Spend(s.rows, pc.hash, s.now)[next := row],
         reqs := s.reqs[r := Answered(pc.hash, Granted(next, pc.sess.createdAt))],
         born := s.born[next := Birth(row, |chain|, Some(pc.hash), pc.sess.createdAt)],
         chains := s.chains[f := chain + [next]])
  }

  function IssueStep(s: State, r: ReqId, next: Hash, f: FamilyId): State
    requires r in s.reqs && s.reqs[r].Issuing?
  {
    var row := Session(s.reqs[r].user, f, None, s.reqs[r].start + s.ttl, s.now);
    s.(rows := s.rows[next := row],
       reqs := s.reqs - {r},
       born := s.born[next := Birth(row, 0, None, s.reqs[r].start)],
       chains := s.chains[f := [next]])
  }

  // ----- runs -----

  predicate ValidRun(s: State, steps: seq<Step>)
    decreases |steps|
  {
    steps == [] || (Enabled(s, steps[0]) && ValidRun(Next(s, steps[0]), steps[1..]))
  }

  function Run(s: State, steps: seq<Step>): State
    requires ValidRun(s, steps)
    decreases |steps|
  {
    if steps == [] then s else Run(Next(s, steps[0]), steps[1..])
  }

  // ----- the invariant -----

  type History = map<Hash, Birth>
  type Chains = map<FamilyId, seq<Hash>>

  /** A birth sits at its own place in the chain of its family and, unless it is
      the first, continues the birth just before it. */
  ghost predicate BirthOk(born: History, chains: Chains, h: Hash)
    requires h in born
  {
    var b := born[h];
    && b.row.usedAt.None?
    && b.row.family in chains
    && b.pos < |chains[b.row.family]|
    && chains[b.row.family][b.pos] == h
    && b.authTime <= b.row.createdAt
    && (b.pos == 0 <==> b.parent.None?)
    && (b.parent.Some? ==> b.parent.value in born && Continues(b, born[b.parent.value]))
  }

  predicate Continues(b: Birth, p: Birth) {
    && p.row.family == b.row.family && p.row.user == b.row.user
    && p.pos + 1 == b.pos
    && p.row.createdAt <= b.row.createdAt
    && b.authTime == p.row.createdAt
  }

  ghost predicate ChainOk(born: History, chains: Chains, f: FamilyId)
    requires f in chains
  {
    && chains[f] != []
    && forall i :: 0 <= i < |chains[f]| ==>
                     var h := chains[f][i]; h in born && born[h].row.family == f && born[h].pos == i
  }

  ghost predicate HistoryOk(born: History, chains: Chains) {
    && (forall h :: h in born ==> BirthOk(born, chains, h))
    && (forall f :: f in chains ==> ChainOk(born, chains, f))
  }

  ghost predicate BornBy(born: History, now: Time) {
    forall h :: h in born ==> born[h].row.createdAt <= now
  }

  /** A stored row is its birth row, possibly spent; only the newest row of a
      family can be unspent. */
  ghost predicate RowOk(rows: Table, born: History, chains: Chains, h: Hash)
    requires h in rows
  {
    && h in born && rows[h].family in chains
    && rows[h].(usedAt := None) == born[h].row
    && (!rows[h].Spent() ==> born[h].pos + 1 == |chains[rows[h].family]|)
  }

  ghost predicate RowsOk(rows: Table, born: History, chains: Chains) {
    forall h :: h in rows ==> RowOk(rows, born, chains, h)
  }

  ghost predicate SessionOk(s: State, h: Hash, sess: Session) {
    h in s.born && s.born[h].row == sess.(usedAt := None) && sess.family in s.chains
  }

  ghost predicate PcOk(s: State, pc: Pc) {
    match pc
    case Begun(_, start) => start <= s.now
    case SessionRead(h, start, sess) => SessionOk(s, h, sess)
    case UserRead(h, start, sess) =>
      && SessionOk(s, h, sess)
      && sess.user in s.users
      // The heart of the matter: once the user is not active, the row is gone.
      && (h in s.rows ==> s.users[sess.user] == Active)
    case Destroying(h, sess) => SessionOk(s, h, sess)
    case Answered(h, Reuse(f)) => f in s.chains && FamilyEmpty(s.rows, f)
    case Answered(h, Granted(next, at)) =>
      && next in s.born && s.born[next].parent == Some(h) && h in s.born
      && s.born[next].authTime == at == s.born[h].row.createdAt
    case Answered(_, Refused(_)) => true
    case Issuing(u, start) => u in s.users && start <= s.now
    case Revoking(f) => f in s.chains
  }

  ghost predicate ReqsOk(s: State) {
    forall r :: r in s.reqs ==> PcOk(s, s.reqs[r])
  }

  ghost predicate Inv(s: State) {
    && HistoryOk(s.born, s.chains) && BornBy(s.born, s.now)
    && RowsOk(s.rows, s.born, s.chains)
    && ReqsOk(s)
  }

  // ----- preservation -----

  /** What is true of a request stays true while history grows, no row it may still
      spend appears and no emptied family gets one. */
  lemma PcPersists(s: State, s': State, pc: Pc)
    requires PcOk(s, pc) && s.now <= s'.now && s.users.Keys <= s'.users.Keys
    requires forall h :: h in s.born ==> h in s'.born && s'.born[h] == s.born[h]
    requires s.chains.Keys <= s'.chains.Keys
    requires forall f :: f in s.chains && FamilyEmpty(s.rows, f) ==> FamilyEmpty(s'.rows, f)
    requires pc.UserRead? && pc.hash in s'.rows ==>
               pc.hash in s.rows && s'.users[pc.sess.user] == s.users[pc.sess.user]
    ensures PcOk(s', pc)
  {
  }

  /** Taking rows away, or changing users whose rows are gone or who stay active. */
  lemma ShrinkKeepsInv(s: State, s': State)
    requires Inv(s)
    requires s'.now >= s.now && s'.born == s.born && s'.chains == s.chains && s'.reqs == s.reqs
    requires forall h :: h in s'.rows ==> h in s.rows && s'.rows[h] == s.rows[h]
    requires s.users.Keys <= s'.users.Keys
    requires forall h :: h in s'.rows && s.rows[h].user in s.users && s.users[s.rows[h].user] == Active ==>
               s'.users[s.rows[h].user] == Active
    ensures Inv(s')
  {
    forall h | h in s'.rows
      ensures RowOk(s'.rows, s'.born, s'.chains, h)
    {
      assert RowOk(s.rows, s.born, s.chains, h);
    }
    forall r | r in s'.reqs
      ensures PcOk(s', s'.reqs[r])
    {
      var pc := s.reqs[r];
      assert PcOk(s, pc);
      if pc.UserRead? && pc.hash in s'.rows {
        assert RowOk(s.rows, s.born, s.chains, pc.hash);
      }
      PcPersists(s, s', pc);
    }
  }

  /** Where a request stands is judged by everything but the requests. */
  lemma MoveKeepsInv(s: State, r: ReqId, pc: Pc)
    requires Inv(s) && PcOk(s, pc)
    ensures Inv(s.(reqs := s.reqs[r := pc]))
  {
    var s' := s.(reqs := s.reqs[r := pc]);
    forall q | q in s'.reqs
      ensures PcOk(s', s'.reqs[q])
    {
      assert q != r ==> PcOk(s, s.reqs[q]);
    }
  }

  lemma ForgetKeepsInv(s: State, r: ReqId)
    requires Inv(s)
    ensures Inv(s.(reqs := s.reqs - {r}))
  {
    var s' := s.(reqs := s.reqs - {r});
    forall q | q in s'.reqs
      ensures PcOk(s', s'.reqs[q])
    {
      assert PcOk(s, s.reqs[q]);
    }
  }

  lemma FamilyDropKeepsInv(s: State, f: FamilyId)
    requires Inv(s)
    ensures var s' := s.(rows := DropFamily(s.rows, f)); Inv(s') && FamilyEmpty(s'.rows, f)
  {
    ShrinkKeepsInv(s, s.(rows := DropFamily(s.rows, f)));
  }

  lemma UserDropKeepsInv(s: State, u: UserId, users: map<UserId, UserStatus>)
    requires Inv(s) && s.users.Keys <= users.Keys
    requires forall v :: v in s.users && v != u ==> users[v] == s.users[v]
    ensures Inv(s.(users := users, rows := DropUser(s.rows, u)))
  {
    ShrinkKeepsInv(s, s.(users := users, rows := DropUser(s.rows, u)));
  }

  /** Appending a birth to the end of a chain. */
  lemma AppendKeepsHistory(born: History, chains: Chains, next: Hash, b: Birth)
    requires HistoryOk(born, chains) && next !in born && b.row.usedAt.None? && b.authTime <= b.row.createdAt
    requires b.pos == if b.row.family in chains then |chains[b.row.family]| else 0
    requires b.row.family !in chains ==> b.parent.None?
    requires b.row.family in chains ==> b.parent.Some? && b.parent.value in born && Continues(b, born[b.parent.value])
    ensures var chain := if b.row.family in chains then chains[b.row.family] else [];
            HistoryOk(born[next := b], chains[b.row.family := chain + [next]])
  {
    var f := b.row.family;
    var chain := if f in chains then chains[f] else [];
    var born', chains' := born[next := b], chains[f := chain + [next]];
    if f in chains {
      assert ChainOk(born, chains, f);
    }
    forall h | h in born'
      ensures BirthOk(born', chains', h)
    {
      if h != next {
        assert BirthOk(born, chains, h);
      }
    }
    forall g | g in chains'
      ensures ChainOk(born', chains', g)
    {
      if g != f {
        assert ChainOk(born, chains, g);
      }
    }
  }

  /** Spending the newest row of a family and inserting its successor. */
  lemma SpendKeepsRows(rows: Table, born: History, chains: Chains, h: Hash, now: Time, next: Hash, b: Birth)
    requires HistoryOk(born, chains) && RowsOk(rows, born, chains)
    requires h in rows && !rows[h].Spent() && next !in born && b.row.usedAt.None?
    requires b.row.family == rows[h].family && b.pos == |chains[b.row.family]|
    ensures RowsOk(Spend(rows, h, now)[next := b.row], born[next := b],
                   chains[b.row.family := chains[b.row.family] + [next]])
  {
    var f := b.row.family;
    var rows' := Spend(rows, h, now)[next := b.row];
    var born', chains' := born[next := b], chains[f := chains[f] + [next]];
    assert RowOk(rows, born, chains, h) && BirthOk(born, chains, h);
    forall g | g in rows'
      ensures RowOk(rows', born', chains', g)
    {
      if g != next {
        assert RowOk(rows, born, chains, g) && BirthOk(born, chains, g);
      }
    }
  }

  lemma RotateKeepsTables(s: State, r: ReqId, next: Hash)
    requires Inv(s) && Enabled(s, Rotate(r, next)) && Commits(s, r)
    ensures var s' := RotateStep(s, r, next);
            HistoryOk(s'.born, s'.chains) && BornBy(s'.born, s'.now) && RowsOk(s'.rows, s'.born, s'.chains)
  {
    var s' := RotateStep(s, r, next);
    var h := s.reqs[r].hash;
    assert PcOk(s, s.reqs[r]) && RowOk(s.rows, s.born, s.chains, h) && BirthOk(s.born, s.chains, h);
    var b := s'.born[next];
    AppendKeepsHistory(s.born, s.chains, next, b);
    SpendKeepsRows(s.rows, s.born, s.chains, h, s.now, next, b);
  }

  lemma RotateKeepsOthers(s: State, r: ReqId, next: Hash, q: ReqId)
    requires Inv(s) && Enabled(s, Rotate(r, next)) && Commits(s, r) && q in s.reqs
    ensures PcOk(RotateStep(s, r, next), s.reqs[q])
  {
    assert PcOk(s, s.reqs[r]) && PcOk(s, s.reqs[q]);
    assert RowOk(s.rows, s.born, s.chains, s.reqs[r].hash);
    PcPersists(s, RotateStep(s, r, next), s.reqs[q]);
  }

  lemma RotateKeepsInv(s: State, r: ReqId, next: Hash)
    requires Inv(s) && Enabled(s, Rotate(r, next))
    ensures Inv(RotateStep(s, r, next))
  {
    assert PcOk(s, s.reqs[r]);
    if !Commits(s, r) {
      MoveKeepsInv(s, r, Destroying(s.reqs[r].hash, s.reqs[r].sess));
    } else {
      RotateKeepsTables(s, r, next);
      var s' := RotateStep(s, r, next);
      assert RowOk(s.rows, s.born, s.chains, s.reqs[r].hash);
      forall q | q in s'.reqs
        ensures PcOk(s', s'.reqs[q])
      {
        if q != r {
          RotateKeepsOthers(s, r, next, q);
        }
      }
    }
  }

  lemma IssueKeepsTables(s: State, r: ReqId, next: Hash, f: FamilyId)
    requires Inv(s) && Enabled(s, Issue(r, next, f))
    ensures var s' := IssueStep(s, r, next, f);
            HistoryOk(s'.born, s'.chains) && BornBy(s'.born, s'.now) && RowsOk(s'.rows, s'.born, s'.chains)
  {
    var s' := IssueStep(s, r, next, f);
    assert PcOk(s, s.reqs[r]);
    AppendKeepsHistory(s.born, s.chains, next, s'.born[next]);
    assert [] + [next] == [next];
    forall g | g in s'.rows
      ensures RowOk(s'.rows, s'.born, s'.chains, g)
    {
      if g != next {
        assert RowOk(s.rows, s.born, s.chains, g);
      }
    }
  }

  lemma IssueKeepsInv(s: State, r: ReqId, next: Hash, f: FamilyId)
    requires Inv(s) && Enabled(s, Issue(r, next, f))
    ensures Inv(IssueStep(s, r, next, f))
  {
    var s' := IssueStep(s, r, next, f);
    IssueKeepsTables(s, r, next, f);
    forall q | q in s'.reqs
      ensures PcOk(s', s'.reqs[q])
    {
      assert PcOk(s, s.reqs[q]);
      PcPersists(s, s', s.reqs[q]);
    }
  }

  lemma SessionReadIsOk(s: State, h: Hash, start: Time)
    requires Inv(s)
    ensures PcOk(s, AfterSessionRead(s, h, start))
  {
    if h in s.rows {
      assert RowOk(s.rows, s.born, s.chains, h);
    }
  }

  lemma UserReadIsOk(s: State, pc: Pc)
    requires Inv(s) && PcOk(s, pc) && pc.SessionRead?
    ensures PcOk(s, AfterUserRead(s, pc))
  {
  }

  lemma SetStatusKeepsInv(s: State, u: UserId, status: UserStatus)
    requires Inv(s) && u in s.users
    ensures Inv(SetStatusStep(s, u, status))
  {
    if s.users[u] == Active && status != Active {
      UserDropKeepsInv(s, u, s.users[u := status]);
    } else {
      ShrinkKeepsInv(s, SetStatusStep(s, u, status));
    }
  }

  predicate OfARequest(st: Step) {
    st.BeginRefresh? || st.ReadSession? || st.ReadUser? || st.Rotate? || st.Destroy? || st.BeginLogin?
    || st.Issue? || st.BeginRevoke? || st.Revoke? || st.Abandon?
  }

  lemma RequestStepKeepsInv(s: State, st: Step)
    requires Inv(s) && Enabled(s, st) && OfARequest(st)
    ensures Inv(Next(s, st))
  {
    match st
    case BeginRefresh(r, h) => MoveKeepsInv(s, r, Begun(h, s.now));
    case ReadSession(r) =>
      var pc := s.reqs[r];
      SessionReadIsOk(s, pc.hash, pc.start);
      MoveKeepsInv(s, r, AfterSessionRead(s, pc.hash, pc.start));
    case ReadUser(r) =>
      UserReadIsOk(s, s.reqs[r]);
      MoveKeepsInv(s, r, AfterUserRead(s, s.reqs[r]));
    case Rotate(r, next) => RotateKeepsInv(s, r, next);
    case Destroy(r) => DestroyKeepsInv(s, r);
    case BeginLogin(r, u) => MoveKeepsInv(s, r, Issuing(u, s.now));
    case Issue(r, next, family) => IssueKeepsInv(s, r, next, family);
    case BeginRevoke(r, _, h) =>
      assert RowOk(s.rows, s.born, s.chains, h);
      MoveKeepsInv(s, r, Revoking(s.rows[h].family));
    case Revoke(r) =>
      FamilyDropKeepsInv(s, s.reqs[r].family);
      ForgetKeepsInv(s.(rows := DropFamily(s.rows, s.reqs[r].family)), r);
    case Abandon(r) => ForgetKeepsInv(s, r);
  }

  lemma DestroyKeepsInv(s: State, r: ReqId)
    requires Inv(s) && Enabled(s, Destroy(r))
    ensures Inv(Next(s, Destroy(r)))
  {
    var h, f := s.reqs[r].hash, s.reqs[r].sess.family;
    assert PcOk(s, s.reqs[r]);
    FamilyDropKeepsInv(s, f);
    MoveKeepsInv(s.(rows := DropFamily(s.rows, f)), r, Answered(h, Reuse(f)));
  }

  /** The clock, the users and what ends all of a user's sessions. */
  lemma DataStepKeepsInv(s: State, st: Step)
    requires Inv(s) && Enabled(s, st) && !OfARequest(st)
    ensures Inv(Next(s, st))
  {
    match st
    case SetStatus(u, status) => SetStatusKeepsInv(s, u, status);
    case SoftDelete(u) => UserDropKeepsInv(s, u, s.users[u := Deleted]);
    case RevokeAll(u) => UserDropKeepsInv(s, u, s.users);
    case BeginPasswordChange(r, u) =>
      UserDropKeepsInv(s, u, s.users);
      MoveKeepsInv(s.(rows := DropUser(s.rows, u)), r, Issuing(u, s.now));
    case Tick(d) => ShrinkKeepsInv(s, s.(now := s.now + d));
    case AddUser(u, status) => ShrinkKeepsInv(s, s.(users := s.users[u := status]));
    case Clean => ShrinkKeepsInv(s, s.(rows := DropExpired(s.rows, s.now)));
    case _ =>
  }

  lemma StepKeepsInv(s: State, st: Step)
    requires Inv(s) && Enabled(s, st)
    ensures Inv(Next(s, st))
  {
    if OfARequest(st) {
      RequestStepKeepsInv(s, st);
    } else {
      DataStepKeepsInv(s, st);
    }
  }

  lemma {:induction false} RunKeepsInv(s: State, steps: seq<Step>)
    requires Inv(s) && ValidRun(s, steps)
    ensures Inv(Run(s, steps))
    decreases |steps|
  {
    if steps != [] {
      StepKeepsInv(s, steps[0]);
      RunKeepsInv(Next(s, steps[0]), steps[1..]);
    }
  }
}
