/** User transactions interleaved freely. A transaction updates and locks its user
    row, takes the next sequence number while inserting its event, and commits or
    rolls back; sequence numbers are handed out at once and never given back. */
module OutboxOrder {
  import opened Common
  import opened Identity
  import opened UserRepo

  type TxId = nat

  datatype Tx = Tx(user: UserId, row: UserRow, event: EventName, seqno: Option<nat>)

  datatype State = State(
    emitEvents: bool,
    users: Users,
    txs: map<TxId, Tx>,                  // open transactions; each holds the lock on its user's row
    nextSeq: nat,
    outbox: Outbox,                      // committed events
    log: map<UserId, seq<UserRow>>)      // history: a user's committed row states in commit order

  datatype Step =
    | BeginCreate(t: TxId, u: UserId, row: UserRow, event: EventName)
    | BeginChange(t: TxId, u: UserId, change: Change, event: EventName)
    | InsertEvent(t: TxId)
    | Commit(t: TxId)
    | Rollback(t: TxId)

  function Init(emitEvents: bool): State {
    State(emitEvents, map[], map[], 0, map[], map[])
  }

  predicate Locked(s: State, u: UserId) {
    exists t :: t in s.txs && s.txs[t].user == u
  }

  predicate Enabled(s: State, st: Step) {
    match st
    case BeginCreate(t, u, _, _) => t !in s.txs && u !in s.users && !Locked(s, u)
    case BeginChange(t, u, _, _) => t !in s.txs && u in s.users && !Locked(s, u)
    case InsertEvent(t) => s.emitEvents && t in s.txs && s.txs[t].seqno.None?
    case Commit(t) => t in s.txs && (s.emitEvents ==> s.txs[t].seqno.Some?)
    case Rollback(t) => t in s.txs
  }

  function LogOf(log: map<UserId, seq<UserRow>>, u: UserId): seq<UserRow> {
    if u in log then log[u] else []
  }

  function Next(s: State, st: Step): State
    requires Enabled(s, st)
  {
    match st
    case BeginCreate(t, u, row, event) => s.(txs := s.txs[t := Tx(u, row, event, None)])
    case BeginChange(t, u, change, event) =>
      s.(txs := s.txs[t := Tx(u, ApplyChange(s.users[u], change), event, None)])
    case InsertEvent(t) => s.(txs := s.txs[t := s.txs[t].(seqno := Some(s.nextSeq))], nextSeq := s.nextSeq + 1)
    case Commit(t) =>
      var tx := s.txs[t];
      s.(users := s.users[tx.user := tx.row],
         txs := s.txs - {t},
         outbox := if tx.seqno.Some? then s.outbox[tx.seqno.value := Event(tx.event, tx.user, tx.row)] else s.outbox,
         log := s.log[tx.user := LogOf(s.log, tx.user) + [tx.row]])
    case Rollback(t) => s.(txs := s.txs - {t})
  }

  predicate ValidRun(s: State, steps: seq<Step>)
    decreases |steps|
  {
    steps == [] || (Enabled(s, steps[0]) && ValidRun(Next(s, steps[0]), steps[1..]))
  }

  function Run(s: State, steps: seq<Step>): State
    requires ValidRun(s, steps)
    decreases |steps|
  {
    if steps == [] then s else Run(Next(s, steps[0]), steps[1..])
  }

  // ----- what a consumer reads -----

  /** The row states announced for a user, in order of sequence number below n. */
  function Announced(outbox: Outbox, n: nat, u: UserId): seq<UserRow> {
    if n == 0 then []
    else
      var before := Announced(outbox, n - 1, u);
      if n - 1 in outbox && outbox[n - 1].user == u then before + [outbox[n - 1].row] else before
  }

  /** A consumer's copy of the users after applying every event in order. */
  function Replay(outbox: Outbox, n: nat): Users {
    if n == 0 then map[]
    else
      var before := Replay(outbox, n - 1);
      if n - 1 in outbox then before[outbox[n - 1].user := outbox[n - 1].row] else before
  }

  lemma {:induction false} ReplayKeepsTheLast(outbox: Outbox, n: nat, u: UserId)
    ensures u in Replay(outbox, n) <==> Announced(outbox, n, u) != []
    ensures u in Replay(outbox, n) ==>
              Replay(outbox, n)[u] == Announced(outbox, n, u)[|Announced(outbox, n, u)| - 1]
  {
    if n > 0 {
      ReplayKeepsTheLast(outbox, n - 1, u);
    }
  }

  /** An event numbered above all of its user's events goes to the end of that
      user's announcements and nowhere else. */
  lemma {:induction false} InsertIsLast(outbox: Outbox, q: nat, e: Event, n: nat, u: UserId)
    requires q !in outbox
    requires u == e.user ==> forall p :: p in outbox && outbox[p].user == u ==> p < q
    ensures Announced(outbox[q := e], n, u)
            == if q < n && e.user == u then Announced(outbox, n, u) + [e.row] else Announced(outbox, n, u)
  {
    if n > 0 {
      InsertIsLast(outbox, q, e, n - 1, u);
    }
  }

  // ----- the invariant -----

  ghost predicate TxOk(s: State, t: TxId)
    requires t in s.txs
  {
    var tx := s.txs[t];
    && (tx.seqno.Some? ==>
          && s.emitEvents && tx.seqno.value < s.nextSeq && tx.seqno.value !in s.outbox
          && forall q :: q in s.outbox && s.outbox[q].user == tx.user ==> q < tx.seqno.value)
    && (forall t' :: t' in s.txs && t' != t ==>
          s.txs[t'].user != tx.user && (tx.seqno.Some? ==> s.txs[t'].seqno != tx.seqno))
  }

  ghost predicate UserOk(s: State, u: UserId) {
    && (u in s.users <==> LogOf(s.log, u) != [])
    && (u in s.users ==> s.users[u] == s.log[u][|s.log[u]| - 1])
    && Announced(s.outbox, s.nextSeq, u) == if s.emitEvents then LogOf(s.log, u) else []
  }

  ghost predicate Inv(s: State) {
    && (forall q :: q in s.outbox ==> q < s.nextSeq)
    && (forall t :: t in s.txs ==> TxOk(s, t))
    && (forall u :: UserOk(s, u))
  }

  lemma CommitKeepsInv(s: State, t: TxId)
    requires Inv(s) && Enabled(s, Commit(t))
    ensures Inv(Next(s, Commit(t)))
  {
    var s' := Next(s, Commit(t));
    var tx := s.txs[t];
    assert TxOk(s, t);
    forall u
      ensures UserOk(s', u)
    {
      assert UserOk(s, u);
      if tx.seqno.Some? {
        InsertIsLast(s.outbox, tx.seqno.value, Event(tx.event, tx.user, tx.row), s.nextSeq, u);
      }
    }
    forall t' | t' in s'.txs
      ensures TxOk(s', t')
    {
      assert TxOk(s, t');
    }
  }

  lemma StepKeepsInv(s: State, st: Step)
    requires Inv(s) && Enabled(s, st)
    ensures Inv(Next(s, st))
  {
    var s' := Next(s, st);
    if st.Commit? {
      CommitKeepsInv(s, st.t);
    } else {
      forall u
        ensures UserOk(s', u)
      {
        assert UserOk(s, u);
      }
      forall t | t in s'.txs
        ensures TxOk(s', t)
      {
        if t in s.txs {
          assert TxOk(s, t);
        }
      }
    }
  }

  lemma {:induction false} RunKeepsInv(s: State, steps: seq<Step>)
    requires Inv(s) && ValidRun(s, steps)
    ensures Inv(Run(s, steps)) && Run(s, steps).emitEvents == s.emitEvents
    decreases |steps|
  {
    if steps != [] {
      StepKeepsInv(s, steps[0]);
      RunKeepsInv(Next(s, steps[0]), steps[1..]);
    }
  }

  // ----- the theorems -----

  /** In every reachable state each user's events, by sequence number, are exactly
      that user's successive committed states, so replaying the outbox rebuilds
      the user table. */
  lemma OutboxTellsTheWholeStory(steps: seq<Step>)
    requires ValidRun(Init(true), steps)
    ensures var s := Run(Init(true), steps);
            && (forall u :: Announced(s.outbox, s.nextSeq, u) == LogOf(s.log, u))
            && Replay(s.outbox, s.nextSeq) == s.users
  {
    RunKeepsInv(Init(true), steps);
    var s := Run(Init(true), steps);
    forall u
      ensures Announced(s.outbox, s.nextSeq, u) == LogOf(s.log, u)
      ensures u in Replay(s.outbox, s.nextSeq) <==> u in s.users
      ensures u in s.users ==> Replay(s.outbox, s.nextSeq)[u] == s.users[u]
    {
      assert UserOk(s, u);
      ReplayKeepsTheLast(s.outbox, s.nextSeq, u);
    }
  }

  // ----- one transaction among others -----

  predicate Ends(st: Step, t: TxId) {
    st == Commit(t) || st == Rollback(t)
  }

  ghost predicate StaysOpen(steps: seq<Step>, t: TxId) {
    forall i :: 0 <= i < |steps| ==> !Ends(steps[i], t)
  }

  /** What a transaction holds, and the row it has locked. */
  ghost predicate SameBehindLock(s: State, s': State, t: TxId)
    requires t in s.txs
  {
    var u := s.txs[t].user;
    && t in s'.txs && s'.txs[t].user == u && s'.txs[t].row == s.txs[t].row && s'.txs[t].event == s.txs[t].event
    && (u in s'.users <==> u in s.users)
    && (u in s.users ==> s'.users[u] == s.users[u])
  }

  lemma StepBehindLock(s: State, st: Step, t: TxId)
    requires Inv(s) && Enabled(s, st) && t in s.txs && !Ends(st, t)
    ensures SameBehindLock(s, Next(s, st), t)
  {
    assert TxOk(s, t);
  }

  lemma {:induction false} LockedRowStays(s: State, steps: seq<Step>, t: TxId)
    requires Inv(s) && ValidRun(s, steps) && t in s.txs && StaysOpen(steps, t)
    ensures SameBehindLock(s, Run(s, steps), t)
    decreases |steps|
  {
    if steps != [] {
      StepBehindLock(s, steps[0], t);
      StepKeepsInv(s, steps[0]);
      LockedRowStays(Next(s, steps[0]), steps[1..], t);
    }
  }

  /** With a webhook, exactly this event is added, under a number above all of its
      user's others; without one, nothing. */
  ghost predicate Announces(s: State, s': State, e: Event) {
    if s.emitEvents
    then exists q: nat :: q !in s.outbox && s'.outbox == s.outbox[q := e] && AboveAll(s.outbox, e.user, q)
    else s'.outbox == s.outbox
  }

  ghost predicate AboveAll(outbox: Outbox, u: UserId, q: nat) {
    forall p :: p in outbox && outbox[p].user == u ==> p < q
  }

  /** No update is lost: whatever commits, rolls back or begins while a change is open,
      it commits against the row it was computed from, writes that row changed as asked
      and no other, and with a webhook announces exactly that row, once, after all of the
      user's earlier events. */
  lemma NoUpdateIsLost(s: State, t: TxId, u: UserId, change: Change, event: EventName, between: seq<Step>)
    requires Inv(s) && Enabled(s, BeginChange(t, u, change, event))
    requires ValidRun(Next(s, BeginChange(t, u, change, event)), between) && StaysOpen(between, t)
    requires Enabled(Run(Next(s, BeginChange(t, u, change, event)), between), Commit(t))
    ensures var s1 := Run(Next(s, BeginChange(t, u, change, event)), between);
            var s2 := Next(s1, Commit(t));
            && u in s1.users && s1.users[u] == s.users[u]
            && s2.users == s1.users[u := ApplyChange(s.users[u], change)]
            && Announces(s1, s2, Event(event, u, ApplyChange(s.users[u], change)))
  {
    var s0 := Next(s, BeginChange(t, u, change, event));
    StepKeepsInv(s, BeginChange(t, u, change, event));
    LockedRowStays(s0, between, t);
    RunKeepsInv(s0, between);
    CommitWrites(Run(s0, between), t);
  }

  /** A new user in the same way. */
  lemma NoUserIsLost(s: State, t: TxId, u: UserId, row: UserRow, event: EventName, between: seq<Step>)
    requires Inv(s) && Enabled(s, BeginCreate(t, u, row, event))
    requires ValidRun(Next(s, BeginCreate(t, u, row, event)), between) && StaysOpen(between, t)
    requires Enabled(Run(Next(s, BeginCreate(t, u, row, event)), between), Commit(t))
    ensures var s1 := Run(Next(s, BeginCreate(t, u, row, event)), between);
            var s2 := Next(s1, Commit(t));
            && u !in s1.users && s2.users == s1.users[u := row]
            && Announces(s1, s2, Event(event, u, row))
  {
    var s0 := Next(s, BeginCreate(t, u, row, event));
    StepKeepsInv(s, BeginCreate(t, u, row, event));
    LockedRowStays(s0, between, t);
    RunKeepsInv(s0, between);
    CommitWrites(Run(s0, between), t);
  }

  lemma CommitWrites(s: State, t: TxId)
    requires Inv(s) && Enabled(s, Commit(t))
    ensures var s', tx := Next(s, Commit(t)), s.txs[t];
            && s'.users == s.users[tx.user := tx.row]
            && Announces(s, s', Event(tx.event, tx.user, tx.row))
  {
    var tx := s.txs[t];
    assert TxOk(s, t);
    if s.emitEvents {
      assert AboveAll(s.outbox, tx.user, tx.seqno.value);
    }
  }

  /** A transaction waits only for the one that has locked its user: it can always write
      its event, commit once it has, or roll back. */
  lemma OnlyTheLockWaits(s: State, t: TxId, u: UserId, change: Change, row: UserRow, event: EventName)
    ensures t in s.txs ==> Enabled(s, Rollback(t)) && (Enabled(s, InsertEvent(t)) || Enabled(s, Commit(t)))
    ensures t !in s.txs && u in s.users ==> (Enabled(s, BeginChange(t, u, change, event)) <==> !Locked(s, u))
    ensures t !in s.txs && u !in s.users ==> (Enabled(s, BeginCreate(t, u, row, event)) <==> !Locked(s, u))
  {
  }

  /** A transaction that rolls back leaves users, events and history as its neighbours
      left them; only its number is gone. */
  lemma RollbackLeavesNoTrace(s: State, t: TxId)
    requires Inv(s) && Enabled(s, Rollback(t))
    ensures var s' := Next(s, Rollback(t));
            && s'.users == s.users && s'.outbox == s.outbox && s'.log == s.log && s'.nextSeq == s.nextSeq
            && s'.txs == s.txs - {t} && !Locked(s', s.txs[t].user)
  {
    assert TxOk(s, t);
  }

  /** With no webhook configured nothing is ever written to the outbox. */
  lemma {:induction false} SilentWithoutWebhook(s: State, steps: seq<Step>)
    requires !s.emitEvents && s.outbox == map[] && Inv(s) && ValidRun(s, steps)
    ensures Run(s, steps).outbox == map[]
    decreases |steps|
  {
    if steps != [] {
      if steps[0].Commit? {
        assert TxOk(s, steps[0].t);
      }
      StepKeepsInv(s, steps[0]);
      SilentWithoutWebhook(Next(s, steps[0]), steps[1..]);
    }
  }

  /** Across users the numbers need not follow commit order: the transaction that
      took number 0 can commit after the one that took number 1. */
  lemma NumbersDoNotFollowCommits(a: UserRow, b: UserRow)
    ensures var begin := [BeginCreate(0, 0, a, UserCreated), BeginCreate(1, 1, b, UserCreated),
                          InsertEvent(0), InsertEvent(1), Commit(1)];
            && ValidRun(Init(true), begin)
            && var s := Run(Init(true), begin);
               && 1 in s.outbox && 0 !in s.outbox
               && Enabled(s, Commit(0)) && 0 in Next(s, Commit(0)).outbox
  {
    var s1 := Next(Init(true), BeginCreate(0, 0, a, UserCreated));
    assert !Locked(s1, 1);
    var s2 := Next(s1, BeginCreate(1, 1, b, UserCreated));
    var s3 := Next(s2, InsertEvent(0));
    var s4 := Next(s3, InsertEvent(1));
    var s5 := Next(s4, Commit(1));
    assert Run(s4, [Commit(1)]) == s5;
    assert [InsertEvent(1), Commit(1)][1..] == [Commit(1)];
    assert Run(s3, [InsertEvent(1), Commit(1)]) == s5;
    assert [InsertEvent(0), InsertEvent(1), Commit(1)][1..] == [InsertEvent(1), Commit(1)];
    assert Run(s2, [InsertEvent(0), InsertEvent(1), Commit(1)]) == s5;
    var rest := [BeginCreate(1, 1, b, UserCreated), InsertEvent(0), InsertEvent(1), Commit(1)];
    assert rest[1..] == [InsertEvent(0), InsertEvent(1), Commit(1)];
    assert Run(s1, rest) == s5;
    assert ([BeginCreate(0, 0, a, UserCreated)] + rest)[1..] == rest;
    assert [BeginCreate(0, 0, a, UserCreated)] + rest
           == [BeginCreate(0, 0, a, UserCreated), BeginCreate(1, 1, b, UserCreated), InsertEvent(0), InsertEvent(1), Commit(1)];
  }
}
