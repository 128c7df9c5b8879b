/** What the refresh protocol guarantees over every interleaving. */
module RefreshTheorems {
  import opened Common
  import opened Identity
  import opened SessionTable
  import opened RefreshProtocol

  lemma ReachableInv(ttl: int, steps: seq<Step>)
    requires ValidRun(Init(ttl), steps)
    ensures Inv(Run(Init(ttl), steps))
  {
    RunKeepsInv(Init(ttl), steps);
  }

  /** Although status was read in an earlier step, a rotation that commits does so
      for a user who is active at that very moment, and spends that user's row. */
  lemma RotationNeedsActiveUser(ttl: int, steps: seq<Step>, r: ReqId)
    requires ValidRun(Init(ttl), steps) && Commits(Run(Init(ttl), steps), r)
    ensures var s := Run(Init(ttl), steps);
            var u := s.reqs[r].sess.user;
            && u in s.users && s.users[u] == Active
            && s.rows[s.reqs[r].hash].user == u && s.rows[s.reqs[r].hash].family == s.reqs[r].sess.family
  {
    ReachableInv(ttl, steps);
    var s := Run(Init(ttl), steps);
    assert PcOk(s, s.reqs[r]);
    assert RowOk(s.rows, s.born, s.chains, s.reqs[r].hash);
  }

  // ----- families -----

  lemma {:induction false} OneUserPerFamily(s: State, h: Hash)
    requires Inv(s) && h in s.born
    ensures var f := s.born[h].row.family;
            f in s.chains && s.chains[f] != [] && s.chains[f][0] in s.born
            && s.born[h].row.user == s.born[s.chains[f][0]].row.user
            && s.born[s.chains[f][0]].row.createdAt <= s.born[h].row.createdAt
    decreases if h in s.born then s.born[h].pos else 0
  {
    assert BirthOk(s.born, s.chains, h);
    assert ChainOk(s.born, s.chains, s.born[h].row.family);
    if s.born[h].pos > 0 {
      OneUserPerFamily(s, s.born[h].parent.value);
    }
  }

  /** In every reachable state the rows ever created in a family are exactly its
      chain, each made by spending the one before it; the family has one user and
      at most one unspent row. */
  lemma FamilyIsOneLinearChain(ttl: int, steps: seq<Step>, f: FamilyId)
    requires ValidRun(Init(ttl), steps) && f in Run(Init(ttl), steps).chains
    ensures var s := Run(Init(ttl), steps);
            var c := s.chains[f];
            && (forall h :: h in c <==> h in s.born && s.born[h].row.family == f)
            && (forall i, j :: 0 <= i < j < |c| ==> c[i] != c[j])
            && (forall i :: 0 < i < |c| ==> c[i] in s.born && s.born[c[i]].parent == Some(c[i - 1]))
            && (forall a, b :: a in s.rows && b in s.rows && s.rows[a].family == s.rows[b].family == f ==>
                  && s.rows[a].user == s.rows[b].user
                  && (!s.rows[a].Spent() && !s.rows[b].Spent() ==> a == b))
  {
    ReachableInv(ttl, steps);
    var s := Run(Init(ttl), steps);
    var c := s.chains[f];
    assert ChainOk(s.born, s.chains, f);
    forall h | h in s.born && s.born[h].row.family == f
      ensures h in c
    {
      assert BirthOk(s.born, s.chains, h);
    }
    forall i | 0 < i < |c|
      ensures c[i] in s.born && s.born[c[i]].parent == Some(c[i - 1])
    {
      assert BirthOk(s.born, s.chains, c[i]);
      assert BirthOk(s.born, s.chains, s.born[c[i]].parent.value);
    }
    forall a, b | a in s.rows && b in s.rows && s.rows[a].family == s.rows[b].family == f
      ensures s.rows[a].user == s.rows[b].user
      ensures !s.rows[a].Spent() && !s.rows[b].Spent() ==> a == b
    {
      RowsOfOneFamily(s, a, b);
    }
  }

  lemma RowsOfOneFamily(s: State, a: Hash, b: Hash)
    requires Inv(s) && a in s.rows && b in s.rows && s.rows[a].family == s.rows[b].family
    ensures s.rows[a].user == s.rows[b].user
    ensures !s.rows[a].Spent() && !s.rows[b].Spent() ==> a == b
  {
    assert RowOk(s.rows, s.born, s.chains, a) && RowOk(s.rows, s.born, s.chains, b);
    assert BirthOk(s.born, s.chains, a) && BirthOk(s.born, s.chains, b);
    OneUserPerFamily(s, a);
    OneUserPerFamily(s, b);
  }

  /** Births are never forgotten. */
  lemma {:induction false} BirthsPersist(s: State, steps: seq<Step>)
    requires ValidRun(s, steps)
    ensures var s' := Run(s, steps);
            && (forall h :: h in s.born ==> h in s'.born && s'.born[h] == s.born[h])
            && s.chains.Keys <= s'.chains.Keys
    decreases |steps|
  {
    if steps != [] {
      BirthsPersist(Next(s, steps[0]), steps[1..]);
    }
  }

  lemma EmptyFamilyStep(s: State, st: Step, f: FamilyId)
    requires Inv(s) && Enabled(s, st)
    requires f in s.chains && FamilyEmpty(s.rows, f)
    ensures var s' := Next(s, st);
            f in s'.chains && FamilyEmpty(s'.rows, f)
  {
    if st.Rotate? && Commits(s, st.r) {
      assert PcOk(s, s.reqs[st.r]) && RowOk(s.rows, s.born, s.chains, s.reqs[st.r].hash);
    }
  }

  /** Once a family has no rows it never gets one again, whatever rotations were
      in flight. */
  lemma {:induction false} DeadFamiliesStayDead(s: State, steps: seq<Step>, f: FamilyId)
    requires Inv(s) && ValidRun(s, steps)
    requires f in s.chains && FamilyEmpty(s.rows, f)
    ensures FamilyEmpty(Run(s, steps).rows, f)
    decreases |steps|
  {
    if steps != [] {
      EmptyFamilyStep(s, steps[0], f);
      StepKeepsInv(s, steps[0]);
      DeadFamiliesStayDead(Next(s, steps[0]), steps[1..], f);
    }
  }

  /** The steps after which a user is left with no session at all: logout-all and
      the admin revoke, a password change, and losing the active status. */
  predicate EndsAllSessions(s: State, st: Step, u: UserId) {
    match st
    case RevokeAll(v) => v == u
    case BeginPasswordChange(_, v) => v == u
    case SoftDelete(v) => v == u && u in s.users && s.users[u] != Deleted
    case SetStatus(v, status) => v == u && u in s.users && s.users[u] == Active && status != Active
    case _ => false
  }

  /** After such a step every later row of that user belongs to a family issued
      after it: no refresh already in flight can bring an old login back. */
  lemma RevokedForGood(s: State, st: Step, steps: seq<Step>, u: UserId, h: Hash)
    requires Inv(s) && Enabled(s, st) && EndsAllSessions(s, st, u)
    requires ValidRun(Next(s, st), steps)
    requires h in Run(Next(s, st), steps).rows && Run(Next(s, st), steps).rows[h].user == u
    ensures Run(Next(s, st), steps).rows[h].family !in s.chains
  {
    var s1 := Next(s, st);
    var s2 := Run(s1, steps);
    StepKeepsInv(s, st);
    RunKeepsInv(s1, steps);
    assert RowOk(s2.rows, s2.born, s2.chains, h);
    var f := s2.rows[h].family;
    if f in s.chains {
      assert ChainOk(s1.born, s1.chains, f);
      var root := s1.chains[f][0];
      BirthsPersist(s1, steps);
      OneUserPerFamily(s2, h);
      OneUserPerFamily(s2, root);
      forall g | g in s1.rows
        ensures s1.rows[g].family != f
      {
        assert RowOk(s1.rows, s1.born, s1.chains, g);
        OneUserPerFamily(s1, g);
      }
      DeadFamiliesStayDead(s1, steps, f);
      assert false;
    }
  }

  // ----- exchanging and reuse -----

  /** How many rotations of token h commit along a run. */
  function Exchanges(s: State, steps: seq<Step>, h: Hash): nat
    requires ValidRun(s, steps)
    decreases |steps|
  {
    if steps == [] then 0
    else
      var st := steps[0];
      (if ExchangesNow(s, st, h) then 1 else 0)
      + Exchanges(Next(s, st), steps[1..], h)
  }

  ghost predicate HasSuccessor(s: State, h: Hash) {
    exists c :: c in s.born && s.born[c].parent == Some(h)
  }

  /** Whoever has a successor cannot be spent, now or later. */
  lemma SucceededIsNotSpendable(s: State, h: Hash)
    requires Inv(s) && HasSuccessor(s, h)
    ensures !Spendable(s.rows, h, s.now)
  {
    var c :| c in s.born && s.born[c].parent == Some(h);
    assert BirthOk(s.born, s.chains, c);
    if h in s.rows {
      assert RowOk(s.rows, s.born, s.chains, h);
    }
  }

  predicate ExchangesNow(s: State, st: Step, h: Hash) {
    st.Rotate? && Commits(s, st.r) && s.reqs[st.r].hash == h
  }

  lemma SuccessorsStay(s: State, st: Step, h: Hash)
    requires Enabled(s, st) && HasSuccessor(s, h)
    ensures HasSuccessor(Next(s, st), h)
  {
    var c :| c in s.born && s.born[c].parent == Some(h);
    assert c in Next(s, st).born && Next(s, st).born[c].parent == Some(h);
  }

  lemma ExchangeMakesASuccessor(s: State, r: ReqId, next: Hash)
    requires Enabled(s, Rotate(r, next)) && Commits(s, r)
    ensures HasSuccessor(RotateStep(s, r, next), s.reqs[r].hash)
  {
    var s' := RotateStep(s, r, next);
    assert next in s'.born && s'.born[next].parent == Some(s.reqs[r].hash);
  }

  lemma SuccessorStep(s: State, st: Step, h: Hash)
    requires Inv(s) && Enabled(s, st)
    ensures HasSuccessor(s, h) ==> !ExchangesNow(s, st, h)
    ensures HasSuccessor(s, h) || ExchangesNow(s, st, h) ==> HasSuccessor(Next(s, st), h)
  {
    if HasSuccessor(s, h) {
      SucceededIsNotSpendable(s, h);
      SuccessorsStay(s, st, h);
    } else if ExchangesNow(s, st, h) {
      ExchangeMakesASuccessor(s, st.r, st.next);
    }
  }

  /** Each refresh token is exchanged at most once in a whole run, however many
      requests present it. */
  lemma {:induction false} ExchangedAtMostOnce(s: State, steps: seq<Step>, h: Hash)
    requires Inv(s) && ValidRun(s, steps)
    ensures Exchanges(s, steps, h) <= if HasSuccessor(s, h) then 0 else 1
    decreases |steps|
  {
    if steps != [] {
      SuccessorStep(s, steps[0], h);
      StepKeepsInv(s, steps[0]);
      ExchangedAtMostOnce(Next(s, steps[0]), steps[1..], h);
    }
  }

  /** A refresh that answered "reused" leaves its family empty from then on. */
  lemma ReuseAnswerIsFinal(ttl: int, steps: seq<Step>, r: ReqId, more: seq<Step>)
    requires ValidRun(Init(ttl), steps)
    requires var s := Run(Init(ttl), steps);
             r in s.reqs && s.reqs[r].Answered? && s.reqs[r].answer.Reuse? && ValidRun(s, more)
    ensures var s := Run(Init(ttl), steps);
            FamilyEmpty(Run(s, more).rows, s.reqs[r].answer.family)
  {
    ReachableInv(ttl, steps);
    var s := Run(Init(ttl), steps);
    assert PcOk(s, s.reqs[r]);
    DeadFamiliesStayDead(s, more, s.reqs[r].answer.family);
  }

  // ----- auth time -----

  /** Along a family's chain rows are created in order of time. */
  lemma {:induction false} ChainInTime(s: State, f: FamilyId, i: nat, j: nat)
    requires Inv(s) && f in s.chains && i <= j < |s.chains[f]|
    ensures s.chains[f][i] in s.born && s.chains[f][j] in s.born
    ensures s.born[s.chains[f][0]].authTime <= s.born[s.chains[f][i]].row.createdAt
    ensures s.born[s.chains[f][i]].row.createdAt <= s.born[s.chains[f][j]].row.createdAt
    decreases j, i
  {
    var c := s.chains[f];
    assert ChainOk(s.born, s.chains, f);
    assert BirthOk(s.born, s.chains, c[j]);
    if i < j {
      assert BirthOk(s.born, s.chains, s.born[c[j]].parent.value);
      ChainInTime(s, f, i, j - 1);
    } else if j > 0 {
      ChainInTime(s, f, 0, j);
    }
  }

  /** The access token of a rotation carries the creation time of the row that was
      spent, which is no earlier than the login. */
  lemma RotatedAuthTime(ttl: int, steps: seq<Step>, r: ReqId)
    requires ValidRun(Init(ttl), steps)
    requires var s := Run(Init(ttl), steps);
             r in s.reqs && s.reqs[r].Answered? && s.reqs[r].answer.Granted?
    ensures RotatedFrom(Run(Init(ttl), steps), r)
  {
    ReachableInv(ttl, steps);
    RotatedFromInv(Run(Init(ttl), steps), r);
  }

  ghost predicate RotatedFrom(s: State, r: ReqId)
    requires r in s.reqs && s.reqs[r].Answered? && s.reqs[r].answer.Granted?
  {
    var Answered(h, Granted(next, at)) := s.reqs[r];
    && h in s.born && next in s.born && s.born[next].parent == Some(h)
    && at == s.born[h].row.createdAt
    && var f := s.born[h].row.family;
       && f in s.chains && s.born[h].pos < |s.chains[f]| && s.chains[f][s.born[h].pos] == h
       && s.chains[f][0] in s.born && s.born[s.chains[f][0]].authTime <= at
  }

  lemma RotatedFromInv(s: State, r: ReqId)
    requires Inv(s) && r in s.reqs && s.reqs[r].Answered? && s.reqs[r].answer.Granted?
    ensures RotatedFrom(s, r)
  {
    assert PcOk(s, s.reqs[r]);
    var h := s.reqs[r].hash;
    assert BirthOk(s.born, s.chains, h);
    ChainInTime(s, s.born[h].row.family, 0, s.born[h].pos);
  }

  /** Where every rotation takes time, the auth time is that of the login's own row
      exactly for the first rotation of a family. */
  lemma FirstRotationIff(s: State, r: ReqId)
    requires Inv(s) && r in s.reqs && s.reqs[r].Answered? && s.reqs[r].answer.Granted?
    requires forall h :: h in s.born && s.born[h].parent.Some? && s.born[h].parent.value in s.born ==>
               s.born[s.born[h].parent.value].row.createdAt < s.born[h].row.createdAt
    ensures RotatedFrom(s, r)
    ensures var spent := s.born[s.reqs[r].hash];
            s.reqs[r].answer.authTime == s.born[s.chains[spent.row.family][0]].row.createdAt <==> spent.pos == 0
  {
    RotatedFromInv(s, r);
    var h := s.reqs[r].hash;
    var f, pos := s.born[h].row.family, s.born[h].pos;
    assert BirthOk(s.born, s.chains, h);
    if pos > 0 {
      var p := s.born[h].parent.value;
      assert BirthOk(s.born, s.chains, p);
      ChainInTime(s, f, 0, pos - 1);
    }
  }

  // ----- auth time against the clock -----

  /** How far the clock moves along a run. */
  function Waited(steps: seq<Step>): nat {
    if steps == [] then 0 else (if steps[0].Tick? then steps[0].d else 0) + Waited(steps[1..])
  }

  lemma {:induction false} ClockMoves(s: State, steps: seq<Step>)
    requires ValidRun(s, steps)
    ensures Run(s, steps).now == s.now + Waited(steps)
    decreases |steps|
  {
    if steps != [] {
      ClockMoves(Next(s, steps[0]), steps[1..]);
    }
  }

  /** A password is accepted for request r at this step. */
  predicate Accepts(st: Step, r: ReqId) {
    (st.BeginLogin? || st.BeginPasswordChange?) && st.r == r
  }

  /** Along these steps request r issues the row, and accepts no other password
      before it does. */
  predicate IssuesOnce(steps: seq<Step>, r: ReqId, root: Hash) {
    steps != [] && !Accepts(steps[0], r)
    && ((steps[0].Issue? && steps[0].r == r && steps[0].next == root) || IssuesOnce(steps[1..], r, root))
  }

  /** The login row is signed with the clock at which the password was accepted, and
      starts its family. */
  lemma {:induction false} LoginIsStamped(s: State, steps: seq<Step>, r: ReqId, root: Hash, accepted: Time)
    requires ValidRun(s, steps) && IssuesOnce(steps, r, root)
    requires r in s.reqs && s.reqs[r].Issuing? ==> s.reqs[r].start == accepted
    ensures root in Run(s, steps).born && Run(s, steps).born[root].authTime == accepted
    ensures Run(s, steps).born[root].parent == None
    decreases |steps|
  {
    var s1 := Next(s, steps[0]);
    if steps[0].Issue? && steps[0].r == r && steps[0].next == root {
      BirthsPersist(s1, steps[1..]);
    } else {
      LoginIsStamped(s1, steps[1..], r, root, accepted);
    }
  }

  lemma BornAtTheClock(s: State, st: Step, h: Hash)
    requires Enabled(s, st) && h !in s.born && h in Next(s, st).born
    ensures Next(s, st).born[h].row.createdAt == s.now
  {
  }

  /** A run in five parts: a password is accepted, time and steps pass, the row that is
      later spent is inserted, and in the end request r has been granted a rotation. */
  ghost predicate Story(s: State, accept: Step, s1: State, between: seq<Step>, s2: State, insert: Step, s3: State,
                        after: seq<Step>, s4: State, r: ReqId)
  {
    && Inv(s) && Enabled(s, accept) && s1 == Next(s, accept)
    && ValidRun(s1, between) && s2 == Run(s1, between)
    && Enabled(s2, insert) && s3 == Next(s2, insert)
    && ValidRun(s3, after) && s4 == Run(s3, after)
    && r in s4.reqs && s4.reqs[r].Answered? && s4.reqs[r].answer.Granted?
    && s4.reqs[r].hash !in s2.born && s4.reqs[r].hash in s3.born
  }

  lemma GrantedFrom(s: State, accept: Step, s1: State, between: seq<Step>, s2: State, insert: Step, s3: State,
                    after: seq<Step>, s4: State, r: ReqId)
    requires Story(s, accept, s1, between, s2, insert, s3, after, s4, r)
    ensures s4.reqs[r].answer.authTime == s2.now
  {
    BothKeepInv(s, accept, s1, between, s2);
    BothKeepInv(s2, insert, s3, after, s4);
    GrantedAt(s4, r);
    BirthsPersist(s3, after);
    BornAtTheClock(s2, insert, s4.reqs[r].hash);
  }

  lemma BothKeepInv(s: State, st: Step, s1: State, steps: seq<Step>, s2: State)
    requires Inv(s) && Enabled(s, st) && s1 == Next(s, st) && ValidRun(s1, steps) && s2 == Run(s1, steps)
    ensures Inv(s2)
  {
    StepKeepsInv(s, st);
    RunKeepsInv(s1, steps);
  }

  lemma GrantedAt(s: State, r: ReqId)
    requires Inv(s) && r in s.reqs && s.reqs[r].Answered? && s.reqs[r].answer.Granted?
    ensures s.reqs[r].hash in s.born && s.reqs[r].answer.authTime == s.born[s.reqs[r].hash].row.createdAt
  {
    assert PcOk(s, s.reqs[r]);
  }

  lemma StampedBefore(s: State, accept: Step, login: ReqId, s1: State, between: seq<Step>, s2: State, insert: Step,
                      s3: State, after: seq<Step>, s4: State, root: Hash)
    requires Enabled(s, accept) && Accepts(accept, login) && s1 == Next(s, accept)
    requires ValidRun(s1, between) && s2 == Run(s1, between) && Enabled(s2, insert) && s3 == Next(s2, insert)
    requires ValidRun(s3, after) && s4 == Run(s3, after) && IssuesOnce(between + [insert], login, root)
    ensures root in s4.born && s4.born[root].authTime == s.now && s4.born[root].parent == None
  {
    RunThenStep(s1, between, insert);
    LoginIsStamped(s1, between + [insert], login, root, s.now);
    BirthsPersist(s3, after);
  }

  /** What a rotation is signed with: the clock at the login plus all the time that
      passed until the spent row was inserted. So it is the login's own auth time
      exactly when the clock has not moved from the login to the insertion of the
      spent row. */
  lemma AuthTimeIsLoginPlusWaiting(s: State, accept: Step, login: ReqId, s1: State, between: seq<Step>, s2: State,
                                   insert: Step, s3: State, after: seq<Step>, s4: State, r: ReqId, root: Hash)
    requires Story(s, accept, s1, between, s2, insert, s3, after, s4, r)
    requires Accepts(accept, login) && IssuesOnce(between + [insert], login, root)
    ensures root in s4.born && s4.born[root].parent == None && s4.born[root].authTime == s.now
    ensures s4.reqs[r].answer.authTime == s4.born[root].authTime + Waited(between)
    ensures s4.reqs[r].answer.authTime == s4.born[root].authTime <==> Waited(between) == 0
  {
    StampedBefore(s, accept, login, s1, between, s2, insert, s3, after, s4, root);
    GrantedFrom(s, accept, s1, between, s2, insert, s3, after, s4, r);
    ClockMoves(s1, between);
  }

  lemma {:induction false} RunThenStep(s: State, steps: seq<Step>, st: Step)
    requires ValidRun(s, steps) && Enabled(Run(s, steps), st)
    ensures ValidRun(s, steps + [st]) && Run(s, steps + [st]) == Next(Run(s, steps), st)
    decreases |steps|
  {
    if steps == [] {
      assert steps + [st] == [st];
      assert [st][1..] == [];
    } else {
      assert (steps + [st])[1..] == steps[1..] + [st];
      RunThenStep(Next(s, steps[0]), steps[1..], st);
    }
  }

  /** One refresh, start to finish, as a run. */
  function RefreshSteps(r: ReqId, h: Hash, next: Hash): seq<Step> {
    [BeginRefresh(r, h), ReadSession(r), ReadUser(r), Rotate(r, next)]
  }

  lemma Unroll4(s: State, a: Step, b: Step, c: Step, d: Step)
    requires Enabled(s, a) && Enabled(Next(s, a), b) && Enabled(Next(Next(s, a), b), c)
    requires Enabled(Next(Next(Next(s, a), b), c), d)
    ensures ValidRun(s, [a, b, c, d])
    ensures Run(s, [a, b, c, d]) == Next(Next(Next(Next(s, a), b), c), d)
  {
    RunThenStep(s, [], a);
    RunThenStep(s, [a], b);
    RunThenStep(s, [a] + [b], c);
    RunThenStep(s, [a] + [b] + [c], d);
    assert [] + [a] == [a];
    assert [a] + [b] + [c] + [d] == [a, b, c, d];
  }

  /** A rotation that finds the row as it was read. */
  lemma RotateFromHere(s: State, s3: State, r: ReqId, h: Hash, next: Hash)
    requires next !in s.born && h in s.rows && s.rows[h].Live(s.now)
    requires s3 == s.(reqs := s.reqs[r := UserRead(h, s.now, s.rows[h])])
    ensures Commits(s3, r)
    ensures var s' := RotateStep(s3, r, next);
            var row := Session(s.rows[h].user, s.rows[h].family, None, s.now + s.ttl, s.now);
            && s'.now == s.now && s'.ttl == s.ttl && s'.users == s.users
            && s'.rows == Spend(s.rows, h, s.now)[next := row]
            && s'.reqs == s.reqs[r := Answered(h, Granted(next, s.rows[h].createdAt))]
            && s'.born.Keys == s.born.Keys + {next}
            && forall g :: g in s.born ==> s'.born[g] == s.born[g]
  {
  }

  lemma RefreshRunGrants(s: State, r: ReqId, h: Hash, next: Hash)
    requires r !in s.reqs && next !in s.born
    requires h in s.rows && s.rows[h].Live(s.now) && s.rows[h].user in s.users && s.users[s.rows[h].user] == Active
    ensures ValidRun(s, RefreshSteps(r, h, next))
    ensures var s' := Run(s, RefreshSteps(r, h, next));
            var row := Session(s.rows[h].user, s.rows[h].family, None, s.now + s.ttl, s.now);
            && s'.now == s.now && s'.ttl == s.ttl && s'.users == s.users
            && s'.rows == Spend(s.rows, h, s.now)[next := row]
            && s'.reqs == s.reqs[r := Answered(h, Granted(next, s.rows[h].createdAt))]
            && s'.born.Keys == s.born.Keys + {next}
            && forall g :: g in s.born ==> s'.born[g] == s.born[g]
  {
    var s1 := s.(reqs := s.reqs[r := Begun(h, s.now)]);
    var s2 := s.(reqs := s.reqs[r := SessionRead(h, s.now, s.rows[h])]);
    var s3 := s.(reqs := s.reqs[r := UserRead(h, s.now, s.rows[h])]);
    assert Next(s, BeginRefresh(r, h)) == s1;
    assert Next(s1, ReadSession(r)) == s2;
    assert Next(s2, ReadUser(r)) == s3;
    RotateFromHere(s, s3, r, h, next);
    assert Next(s3, Rotate(r, next)) == RotateStep(s3, r, next);
    Unroll4(s, BeginRefresh(r, h), ReadSession(r), ReadUser(r), Rotate(r, next));
  }

  const LOGIN_AT_ZERO := [AddUser(0, Active), BeginLogin(0, 0), Issue(0, 1, 9), Tick(5)]

  lemma LoginRun()
    ensures ValidRun(Init(100), LOGIN_AT_ZERO)
    ensures var row := Session(0, 9, None, 100, 0);
            Run(Init(100), LOGIN_AT_ZERO)
            == State(5, 100, map[0 := Active], map[1 := row], map[], map[1 := Birth(row, 0, None, 0)], map[9 := [1]])
  {
    var a1 := Next(Init(100), AddUser(0, Active));
    var a2 := Next(a1, BeginLogin(0, 0));
    assert a2.reqs == map[0 := Issuing(0, 0)];
    var a3 := Next(a2, Issue(0, 1, 9));
    assert a3.reqs == map[];
    Unroll4(Init(100), AddUser(0, Active), BeginLogin(0, 0), Issue(0, 1, 9), Tick(5));
  }

  /** Log in at 0, refresh at 5, refresh again: the second token's auth time is 5,
      although the password was only ever presented at 0. */
  lemma AuthTimeIsNotTheLoginTime()
    ensures ValidRun(Init(100), LOGIN_AT_ZERO)
    ensures var s1 := Run(Init(100), LOGIN_AT_ZERO);
            ValidRun(s1, RefreshSteps(1, 1, 2))
            && var s2 := Run(s1, RefreshSteps(1, 1, 2));
               ValidRun(s2, RefreshSteps(2, 2, 3))
               && var s3 := Run(s2, RefreshSteps(2, 2, 3));
                  && 1 in s3.born && s3.born[1].parent == None && s3.born[1].authTime == 0
                  && 2 in s3.reqs && s3.reqs[2] == Answered(2, Granted(3, 5))
  {
    LoginRun();
    var s1 := Run(Init(100), LOGIN_AT_ZERO);
    RefreshRunGrants(s1, 1, 1, 2);
    RefreshRunGrants(Run(s1, RefreshSteps(1, 1, 2)), 2, 2, 3);
  }

  // ----- the protocol against the sequential use case -----

  function Rank(pc: Pc): nat {
    match pc
    case Begun(_, _) => 5
    case SessionRead(_, _, _) => 4
    case UserRead(_, _, _) => 3
    case Destroying(_, _) => 2
    case _ => 0
  }

  /** Runs one refresh to its answer with nothing in between. */
  function RunAlone(s: State, r: ReqId, next: Hash): State
    requires r in s.reqs && (Rank(s.reqs[r]) > 0 || s.reqs[r].Answered?)
    requires s.reqs[r].Answered? || next !in s.born
    decreases if r in s.reqs then Rank(s.reqs[r]) else 0
  {
    match s.reqs[r]
    case Begun(_, _) => RunAlone(Next(s, ReadSession(r)), r, next)
    case SessionRead(_, _, _) => RunAlone(Next(s, ReadUser(r)), r, next)
    case UserRead(_, _, _) => RunAlone(Next(s, Rotate(r, next)), r, next)
    case Destroying(_, _) => Next(s, Destroy(r))
    case Answered(_, _) => s
  }

  function AnswerOf(t: Table, h: Hash, r: Result<Grant, AuthError>): Answer {
    match r
    case Ok(g) => Granted(g.refresh, g.authTime)
    case Err(e) => if e == RefreshReused && h in t then Reuse(t[h].family) else Refused(e)
  }

  lemma AloneFromUserRead(s: State, r: ReqId, next: Hash)
    requires r in s.reqs && s.reqs[r].UserRead? && next !in s.born
    requires s.reqs[r].hash in s.rows && s.rows[s.reqs[r].hash] == s.reqs[r].sess
    requires s.reqs[r].start == s.now && s.reqs[r].sess.Live(s.now)
    ensures var s' := RunAlone(s, r, next);
            var sess := s.reqs[r].sess;
            && s'.rows == Spend(s.rows, s.reqs[r].hash, s.now)
                            [next := Session(sess.user, sess.family, None, s.now + s.ttl, s.now)]
            && s'.users == s.users && r in s'.reqs
            && s'.reqs[r] == Answered(s.reqs[r].hash, Granted(next, sess.createdAt))
  {
    assert Commits(s, r);
  }

  lemma AloneFromSessionRead(s: State, r: ReqId, next: Hash)
    requires r in s.reqs && s.reqs[r].SessionRead? && next !in s.born
    requires s.reqs[r].hash in s.rows && s.rows[s.reqs[r].hash] == s.reqs[r].sess
    requires s.reqs[r].start == s.now && s.reqs[r].sess.Live(s.now) && next !in s.rows
    ensures var s' := RunAlone(s, r, next);
            var (t, answer) := Refresh(s.rows, s.users, s.now, s.ttl, s.reqs[r].hash, next);
            && s'.rows == t && s'.users == s.users && r in s'.reqs
            && s'.reqs[r] == Answered(s.reqs[r].hash, AnswerOf(s.rows, s.reqs[r].hash, answer))
  {
    var s1 := Next(s, ReadUser(r));
    if s1.reqs[r].UserRead? {
      AloneFromUserRead(s1, r, next);
    }
  }

  lemma BornCoversRows(s: State)
    requires Inv(s)
    ensures s.rows.Keys <= s.born.Keys
  {
    forall g | g in s.rows
      ensures g in s.born
    {
      assert RowOk(s.rows, s.born, s.chains, g);
    }
  }

  lemma AloneFromBegun(s: State, r: ReqId, h: Hash, next: Hash)
    requires r in s.reqs && s.reqs[r] == Begun(h, s.now) && next !in s.born && next !in s.rows
    ensures var s' := RunAlone(s, r, next);
            var (t, answer) := Refresh(s.rows, s.users, s.now, s.ttl, h, next);
            && s'.rows == t && s'.users == s.users && r in s'.reqs
            && s'.reqs[r] == Answered(h, AnswerOf(s.rows, h, answer))
  {
    var s1 := Next(s, ReadSession(r));
    if s1.reqs[r].SessionRead? {
      AloneFromSessionRead(s1, r, next);
    }
  }

  /** Without interference the steps add up to the sequential refreshGrant. */
  lemma AloneIsRefresh(s: State, r: ReqId, h: Hash, next: Hash)
    requires Inv(s) && r !in s.reqs && next !in s.born
    ensures var s' := RunAlone(Next(s, BeginRefresh(r, h)), r, next);
            var (t, answer) := Refresh(s.rows, s.users, s.now, s.ttl, h, next);
            && s'.rows == t && s'.users == s.users && r in s'.reqs
            && s'.reqs[r] == Answered(h, AnswerOf(s.rows, h, answer))
  {
    BornCoversRows(s);
    AloneFromBegun(Next(s, BeginRefresh(r, h)), r, h, next);
  }
}
