/** What each step of the refresh protocol decides and which rows it touches: a replay
    always ends its family, and nobody's requests touch another user's sessions. */
module RefreshSteps {
  import opened Common
  import opened Identity
  import opened SessionTable
  import opened RefreshProtocol
  import opened RefreshTheorems

  // ----- the three decisions of a refresh -----

  /** A request's place is all that changes. */
  ghost predicate Moves(s: State, s': State, r: ReqId, pc: Pc) {
    s' == s.(reqs := s.reqs[r := pc])
  }

  /** Reading the session: absent, spent, past its expiry when the request began, or
      good enough to go on. */
  lemma ReadingDecides(s: State, r: ReqId)
    requires Enabled(s, ReadSession(r))
    ensures var Begun(h, start) := s.reqs[r];
            var s' := Next(s, ReadSession(r));
            && (h !in s.rows ==> Moves(s, s', r, Answered(h, Refused(SessionNotFound))))
            && (h in s.rows && s.rows[h].usedAt != None ==> Moves(s, s', r, Destroying(h, s.rows[h])))
            && (h in s.rows && s.rows[h].usedAt == None && s.rows[h].expiresAt <= start ==>
                  Moves(s, s', r, Answered(h, Refused(SessionExpired))))
            && (h in s.rows && s.rows[h].usedAt == None && start < s.rows[h].expiresAt ==>
                  Moves(s, s', r, SessionRead(h, start, s.rows[h])))
  {
  }

  lemma UserCheckDecides(s: State, r: ReqId)
    requires Enabled(s, ReadUser(r))
    ensures var SessionRead(h, start, sess) := s.reqs[r];
            var s' := Next(s, ReadUser(r));
            && (sess.user !in s.users ==> Moves(s, s', r, Answered(h, Refused(UserNotFound))))
            && (sess.user in s.users ==>
                  match s.users[sess.user]
                  case Active => Moves(s, s', r, UserRead(h, start, sess))
                  case Blocked => Moves(s, s', r, Answered(h, Refused(UserBlocked)))
                  case Deleted => Moves(s, s', r, Answered(h, Refused(UserDeleted))))
  {
  }

  /** The rotation commits exactly for a row that is still there, unspent and not past
      its expiry; otherwise the request turns on the family. */
  lemma RotationDecides(s: State, r: ReqId, next: Hash)
    requires Enabled(s, Rotate(r, next))
    ensures var UserRead(h, start, sess) := s.reqs[r];
            var s' := Next(s, Rotate(r, next));
            if h in s.rows && s.rows[h].usedAt == None && s.now < s.rows[h].expiresAt
            then
              && s'.rows == s.rows[h := s.rows[h].(usedAt := Some(s.now))]
                                  [next := Session(sess.user, sess.family, None, start + s.ttl, s.now)]
              && s'.reqs == s.reqs[r := Answered(h, Granted(next, sess.createdAt))]
            else Moves(s, s', r, Destroying(h, sess))
  {
  }

  // ----- a replay cannot be stopped -----

  predicate About(st: Step, r: ReqId) {
    match st
    case BeginRefresh(q, _) => q == r
    case ReadSession(q) => q == r
    case ReadUser(q) => q == r
    case Rotate(q, _) => q == r
    case Destroy(q) => q == r
    case BeginLogin(q, _) => q == r
    case BeginPasswordChange(q, _) => q == r
    case Issue(q, _, _) => q == r
    case BeginRevoke(q, _, _) => q == r
    case Revoke(q) => q == r
    case Abandon(q) => q == r
    case _ => false
  }

  predicate NoneAbout(steps: seq<Step>, r: ReqId) {
    forall i :: 0 <= i < |steps| ==> !About(steps[i], r)
  }

  lemma {:induction false} OthersDoNotMoveIt(s: State, steps: seq<Step>, r: ReqId)
    requires ValidRun(s, steps) && NoneAbout(steps, r) && r in s.reqs
    ensures r in Run(s, steps).reqs && Run(s, steps).reqs[r] == s.reqs[r]
    decreases |steps|
  {
    if steps != [] {
      assert !About(steps[0], r);
      OthersDoNotMoveIt(Next(s, steps[0]), steps[1..], r);
    }
  }

  /** The family of f is gone, and stays so whatever happens. */
  ghost predicate GoneForGood(s: State, f: FamilyId) {
    && (forall h :: h in s.rows ==> s.rows[h].family != f)
    && forall more :: ValidRun(s, more) ==> forall h :: h in Run(s, more).rows ==> Run(s, more).rows[h].family != f
  }

  lemma DestroyEndsFamily(s: State, r: ReqId)
    requires Inv(s) && Enabled(s, Destroy(r))
    ensures var s' := Next(s, Destroy(r));
            && s'.reqs[r] == Answered(s.reqs[r].hash, Reuse(s.reqs[r].sess.family))
            && GoneForGood(s', s.reqs[r].sess.family)
  {
    var s', f := Next(s, Destroy(r)), s.reqs[r].sess.family;
    assert PcOk(s, s.reqs[r]);
    StepKeepsInv(s, Destroy(r));
    forall more | ValidRun(s', more)
      ensures forall h :: h in Run(s', more).rows ==> Run(s', more).rows[h].family != f
    {
      DeadFamiliesStayDead(s', more, f);
    }
  }

  /** A request that finds the row spent can only go on to destroy the family, or die;
      and when it does destroy it, whatever ran in between, it has answered reuse and
      the family is gone for good. */
  lemma ReplayEndsItsFamily(s: State, r: ReqId, between: seq<Step>)
    requires Inv(s) && Enabled(s, ReadSession(r))
    requires s.reqs[r].hash in s.rows && s.rows[s.reqs[r].hash].usedAt != None
    requires ValidRun(Next(s, ReadSession(r)), between) && NoneAbout(between, r)
    ensures var s1 := Run(Next(s, ReadSession(r)), between);
            && (forall st :: About(st, r) && Enabled(s1, st) ==> st == Destroy(r) || st == Abandon(r))
            && Enabled(s1, Destroy(r))
            && var s2 := Next(s1, Destroy(r));
               && s2.reqs[r] == Answered(s.reqs[r].hash, Reuse(s.rows[s.reqs[r].hash].family))
               && GoneForGood(s2, s.rows[s.reqs[r].hash].family)
  {
    var s0 := Next(s, ReadSession(r));
    ReadingDecides(s, r);
    StepKeepsInv(s, ReadSession(r));
    RunKeepsInv(s0, between);
    OthersDoNotMoveIt(s0, between, r);
    DestroyEndsFamily(Run(s0, between), r);
  }

  /** The same for a request that lost the race: its row was good when read, and is
      spent, expired or gone when it comes to rotate. */
  lemma LosingTheRaceEndsTheFamily(s: State, r: ReqId, next: Hash, between: seq<Step>)
    requires Inv(s) && Enabled(s, Rotate(r, next))
    requires var h := s.reqs[r].hash; !(h in s.rows && s.rows[h].usedAt == None && s.now < s.rows[h].expiresAt)
    requires ValidRun(Next(s, Rotate(r, next)), between) && NoneAbout(between, r)
    ensures var s1 := Run(Next(s, Rotate(r, next)), between);
            && Enabled(s1, Destroy(r))
            && Next(s1, Destroy(r)).reqs[r] == Answered(s.reqs[r].hash, Reuse(s.reqs[r].sess.family))
            && GoneForGood(Next(s1, Destroy(r)), s.reqs[r].sess.family)
  {
    var s0 := Next(s, Rotate(r, next));
    RotationDecides(s, r, next);
    StepKeepsInv(s, Rotate(r, next));
    RunKeepsInv(s0, between);
    OthersDoNotMoveIt(s0, between, r);
    DestroyEndsFamily(Run(s0, between), r);
  }

  /** No request ever waits for another: in any state each one in flight can take its own
      next step, or be dropped; and whoever revokes, blocks, deletes or cleans need not
      wait either. */
  lemma NothingWaits(s: State, r: ReqId, next: Hash, family: FamilyId, u: UserId, status: UserStatus)
    requires r in s.reqs && next !in s.born && family !in s.chains
    ensures match s.reqs[r]
            case Begun(_, _) => Enabled(s, ReadSession(r))
            case SessionRead(_, _, _) => Enabled(s, ReadUser(r))
            case UserRead(_, _, _) => Enabled(s, Rotate(r, next))
            case Destroying(_, _) => Enabled(s, Destroy(r))
            case Issuing(_, _) => Enabled(s, Issue(r, next, family))
            case Revoking(_) => Enabled(s, Revoke(r))
            case Answered(_, _) => true
    ensures !s.reqs[r].Answered? ==> Enabled(s, Abandon(r))
    ensures Enabled(s, RevokeAll(u)) && Enabled(s, Clean)
    ensures u in s.users ==> Enabled(s, SetStatus(u, status)) && Enabled(s, SoftDelete(u))
  {
  }

  // ----- which rows a step touches -----

  /** What takes a stored row away. */
  predicate Takes(s: State, st: Step, row: Session)
    requires Enabled(s, st)
  {
    match st
    case Clean => row.expiresAt < s.now
    case RevokeAll(u) => row.user == u
    case BeginPasswordChange(_, u) => row.user == u
    case SoftDelete(u) => row.user == u && s.users[u] != Deleted
    case SetStatus(u, status) => row.user == u && s.users[u] == Active && status != Active
    case Destroy(r) => row.family == s.reqs[r].sess.family
    case Revoke(r) => row.family == s.reqs[r].family
    case _ => false
  }

  /** What spends it. */
  predicate Spends(s: State, st: Step, h: Hash)
    requires Enabled(s, st) && h in s.rows
  {
    st.Rotate? && s.reqs[st.r].hash == h && s.rows[h].usedAt == None && s.now < s.rows[h].expiresAt
  }

  /** A stored row survives a step exactly when the step is none of these, and changes
      only by being spent. */
  lemma OldRowAfter(s: State, st: Step, h: Hash)
    requires Enabled(s, st) && h in s.rows && h in s.born
    ensures h in Next(s, st).rows <==> !Takes(s, st, s.rows[h])
    ensures h in Next(s, st).rows ==>
              Next(s, st).rows[h] == if Spends(s, st, h) then s.rows[h].(usedAt := Some(s.now)) else s.rows[h]
  {
  }

  /** A row is added exactly by an insert after accepted credentials and by a rotation
      that commits; it is unspent, made now, and lives from the start of its request. */
  lemma NewRowAfter(s: State, st: Step, h: Hash)
    requires Enabled(s, st) && h !in s.rows
    ensures h in Next(s, st).rows
            <==> (st.Issue? && st.next == h)
                 || (st.Rotate? && st.next == h && s.reqs[st.r].hash in s.rows
                     && Spends(s, st, s.reqs[st.r].hash))
    ensures h in Next(s, st).rows ==> Next(s, st).rows[h] == Added(s, st)
  {
  }

  function Added(s: State, st: Step): Session
    requires Enabled(s, st) && (st.Issue? || st.Rotate?)
  {
    var pc := s.reqs[st.r];
    if st.Issue? then Session(pc.user, st.family, None, pc.start + s.ttl, s.now)
    else Session(pc.sess.user, pc.sess.family, None, pc.start + s.ttl, s.now)
  }

  /** Statuses change as admins ask and in no other way. */
  lemma StatusAfter(s: State, st: Step, u: UserId)
    requires Enabled(s, st)
    ensures var s' := Next(s, st);
            if (st.AddUser? || st.SetStatus?) && st.u == u then u in s'.users && s'.users[u] == st.status
            else if st.SoftDelete? && st.u == u then u in s'.users && s'.users[u] == Deleted
            else (u in s'.users <==> u in s.users) && (u in s.users ==> s'.users[u] == s.users[u])
  {
  }

  // ----- users do not touch each other's sessions -----

  /** A request in flight that has to do with user u. */
  ghost predicate InFlightFor(s: State, pc: Pc, u: UserId) {
    match pc
    case Begun(h, _) => h in s.born && s.born[h].row.user == u
    case SessionRead(_, _, sess) => sess.user == u
    case UserRead(_, _, sess) => sess.user == u
    case Destroying(_, sess) => sess.user == u
    case Answered(_, _) => false
    case Issuing(v, _) => v == u
    case Revoking(f) => exists h :: h in s.born && s.born[h].row.family == f && s.born[h].row.user == u
  }

  ghost predicate Quiet(s: State, u: UserId) {
    forall r :: r in s.reqs ==> !InFlightFor(s, s.reqs[r], u)
  }

  /** A step that is taken by or against user u. */
  ghost predicate Concerns(s: State, st: Step, u: UserId) {
    match st
    case SetStatus(v, _) => v == u
    case SoftDelete(v) => v == u
    case RevokeAll(v) => v == u
    case BeginLogin(_, v) => v == u
    case BeginPasswordChange(_, v) => v == u
    case BeginRevoke(_, v, _) => v == u
    case BeginRefresh(_, h) => h in s.born && s.born[h].row.user == u
    case _ => false
  }

  ghost predicate NoneConcerns(s: State, steps: seq<Step>, u: UserId)
    requires ValidRun(s, steps)
    decreases |steps|
  {
    steps == [] || (!Concerns(s, steps[0], u) && NoneConcerns(Next(s, steps[0]), steps[1..], u))
  }

  /** The rows of one family belong to one user, whoever asks. */
  lemma OneOwner(s: State, a: Hash, b: Hash)
    requires Inv(s) && a in s.born && b in s.born && s.born[a].row.family == s.born[b].row.family
    ensures s.born[a].row.user == s.born[b].row.user
  {
    OneUserPerFamily(s, a);
    OneUserPerFamily(s, b);
  }

  lemma BirthAfter(s: State, st: Step, h: Hash)
    requires Enabled(s, st)
    ensures h in s.born ==> h in Next(s, st).born && Next(s, st).born[h] == s.born[h]
    ensures h !in s.born && h in Next(s, st).born ==>
              (st.Issue? || st.Rotate?) && st.r in s.reqs
              && Next(s, st).born[h].row.user == (if st.Issue? then s.reqs[st.r].user else s.reqs[st.r].sess.user)
              && Next(s, st).born[h].row.family == (if st.Issue? then st.family else s.reqs[st.r].sess.family)
  {
  }

  /** A user's rows after someone else's step: nothing new, and only expired ones gone. */
  lemma BystandersRowAfter(s: State, st: Step, u: UserId, h: Hash)
    requires Inv(s) && Enabled(s, st) && Quiet(s, u) && !Concerns(s, st, u)
    ensures h in s.rows && s.rows[h].user == u ==>
              (h in Next(s, st).rows && Next(s, st).rows[h] == s.rows[h]) || s.rows[h].expiresAt < s.now
    ensures h in Next(s, st).rows && Next(s, st).rows[h].user == u ==> h in s.rows && s.rows[h].user == u
  {
    if h in s.rows {
      assert RowOk(s.rows, s.born, s.chains, h);
      OldRowAfter(s, st, h);
      if st.Rotate? || st.Destroy? {
        assert !InFlightFor(s, s.reqs[st.r], u) && PcOk(s, s.reqs[st.r]);
        if s.reqs[st.r].sess.family == s.rows[h].family {
          OneOwner(s, s.reqs[st.r].hash, h);
        }
      } else if st.Revoke? {
        assert !InFlightFor(s, s.reqs[st.r], u);
      }
    } else {
      NewRowAfter(s, st, h);
      if st.Rotate? || st.Issue? {
        assert !InFlightFor(s, s.reqs[st.r], u);
      }
    }
  }

  /** A birth of a user who is not u does not bring anything in flight closer to u. */
  lemma FlightAfterBirths(s: State, s': State, pc: Pc, u: UserId)
    requires !InFlightFor(s, pc, u)
    requires forall h :: h in s'.born && s'.born[h].row.user == u ==> h in s.born && s.born[h] == s'.born[h]
    ensures !InFlightFor(s', pc, u)
  {
  }

  lemma ReadingStaysQuiet(s: State, u: UserId, r: ReqId)
    requires Inv(s) && Enabled(s, ReadSession(r)) && !InFlightFor(s, s.reqs[r], u)
    ensures !InFlightFor(s, Next(s, ReadSession(r)).reqs[r], u)
  {
    ReadingDecides(s, r);
    if s.reqs[r].hash in s.rows {
      assert RowOk(s.rows, s.born, s.chains, s.reqs[r].hash);
    }
  }

  lemma RevokingStaysQuiet(s: State, u: UserId, h: Hash)
    requires Inv(s) && h in s.rows && s.rows[h].user != u
    ensures !InFlightFor(s, Revoking(s.rows[h].family), u)
  {
    assert RowOk(s.rows, s.born, s.chains, h);
    forall g | g in s.born && s.born[g].row.family == s.rows[h].family
      ensures s.born[g].row.user != u
    {
      OneOwner(s, g, h);
    }
  }

  /** The place a request has been moved to. */
  lemma MovedStaysQuiet(s: State, st: Step, u: UserId, r: ReqId)
    requires Enabled(s, st) && Quiet(s, u) && !Concerns(s, st, u) && !st.ReadSession? && !st.BeginRevoke?
    requires r in Next(s, st).reqs && !(r in s.reqs && Next(s, st).reqs[r] == s.reqs[r])
    ensures !InFlightFor(s, Next(s, st).reqs[r], u)
  {
    assert r in s.reqs ==> !InFlightFor(s, s.reqs[r], u);
  }

  lemma ForeignBirths(s: State, st: Step, u: UserId)
    requires Enabled(s, st) && Quiet(s, u)
    ensures forall h :: h in Next(s, st).born && Next(s, st).born[h].row.user == u ==>
              h in s.born && s.born[h] == Next(s, st).born[h]
  {
    assert st.Issue? || st.Rotate? ==> !InFlightFor(s, s.reqs[st.r], u);
    forall h | h in Next(s, st).born && Next(s, st).born[h].row.user == u
      ensures h in s.born && s.born[h] == Next(s, st).born[h]
    {
      BirthAfter(s, st, h);
    }
  }

  lemma QuietStaysQuiet(s: State, st: Step, u: UserId)
    requires Inv(s) && Enabled(s, st) && Quiet(s, u) && !Concerns(s, st, u)
    ensures Quiet(Next(s, st), u)
  {
    var s' := Next(s, st);
    ForeignBirths(s, st, u);
    forall r | r in s'.reqs
      ensures !InFlightFor(s', s'.reqs[r], u)
    {
      if !(r in s.reqs && s'.reqs[r] == s.reqs[r]) {
        match st {
          case ReadSession(_) => ReadingStaysQuiet(s, u, r);
          case BeginRevoke(_, _, h) => RevokingStaysQuiet(s, u, h);
          case _ => MovedStaysQuiet(s, st, u, r);
        }
      }
      FlightAfterBirths(s, s', s'.reqs[r], u);
    }
  }

  /** A user's rows in two states: none added, none changed, only expired ones gone. */
  ghost predicate OnlyAged(s: State, s': State, u: UserId) {
    && s.now <= s'.now
    && (forall h :: h in s.rows && s.rows[h].user == u ==>
          (h in s'.rows && s'.rows[h] == s.rows[h]) || s.rows[h].expiresAt < s'.now)
    && (forall h :: h in s'.rows && s'.rows[h].user == u ==> h in s.rows && s.rows[h].user == u)
  }

  lemma StepOnlyAges(s: State, st: Step, u: UserId)
    requires Inv(s) && Enabled(s, st) && Quiet(s, u) && !Concerns(s, st, u)
    ensures OnlyAged(s, Next(s, st), u)
  {
    forall h
      ensures h in s.rows && s.rows[h].user == u ==>
                (h in Next(s, st).rows && Next(s, st).rows[h] == s.rows[h]) || s.rows[h].expiresAt < s.now
      ensures h in Next(s, st).rows && Next(s, st).rows[h].user == u ==> h in s.rows && s.rows[h].user == u
    {
      BystandersRowAfter(s, st, u, h);
    }
  }

  lemma AgingAddsUp(s: State, s1: State, s2: State, u: UserId)
    requires OnlyAged(s, s1, u) && OnlyAged(s1, s2, u)
    ensures OnlyAged(s, s2, u)
  {
  }

  /** Isolation: while nothing is done by or against a user and nothing of theirs is in
      flight, no interleaving of everybody else's requests, reuse alarms included, adds,
      spends or removes a session of theirs; the cleaner takes only expired ones. */
  lemma {:induction false} UsersAreIsolated(s: State, steps: seq<Step>, u: UserId)
    requires Inv(s) && ValidRun(s, steps) && Quiet(s, u) && NoneConcerns(s, steps, u)
    ensures OnlyAged(s, Run(s, steps), u)
    decreases |steps|
  {
    if steps != [] {
      var s1 := Next(s, steps[0]);
      StepKeepsInv(s, steps[0]);
      QuietStaysQuiet(s, steps[0], u);
      StepOnlyAges(s, steps[0], u);
      UsersAreIsolated(s1, steps[1..], u);
      AgingAddsUp(s, s1, Run(s, steps), u);
    }
  }
}
