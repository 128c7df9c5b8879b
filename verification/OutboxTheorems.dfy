/** What leased delivery guarantees over every run. */
module OutboxTheorems {
  import opened OutboxLeases

  // ----- what each step does -----

  /** What the cleaners take: settled past the retention, pending past the ceiling, and
      neither where its setting is not positive. */
  predicate Takes(cfg: Config, s: State, st: Step, r: Row) {
    || (st.CleanSettled? && cfg.retention > 0 && (r.delivered || r.failed) && r.createdAt < s.now - cfg.retention)
    || (st.CleanStuck? && cfg.maxAge > 0 && !r.delivered && !r.failed && r.createdAt < s.now - cfg.maxAge)
  }

  /** Each column of a row that stays. */
  predicate Changed(cfg: Config, s: State, st: Step, id: EventId, r: Row, r': Row) {
    var marked := (st.MarkDelivered? || st.MarkFailed?) && st.c.id == id;
    && r'.seqno == r.seqno && r'.createdAt == r.createdAt
    && r'.attempts == (if marked then r.attempts + 1 else r.attempts)
    && r'.delivered == (r.delivered || (marked && st.MarkDelivered?))
    && r'.failed == (if marked && st.MarkFailed? then st.c.attempts + 1 >= cfg.maxAttempts else r.failed)
    && r'.nextAttempt == (if marked && st.MarkFailed? then st.next
                          else if st.ClaimDue? && id in st.batch then s.now + cfg.lease
                          else r.nextAttempt)
  }

  lemma OldRowAfter(cfg: Config, s: State, st: Step, id: EventId)
    requires Possible(s, st) && id in s.rows && !(st.Insert? && st.id == id)
    ensures id in Next(cfg, s, st).rows <==> !Takes(cfg, s, st, s.rows[id])
    ensures id in Next(cfg, s, st).rows ==> Changed(cfg, s, st, id, s.rows[id], Next(cfg, s, st).rows[id])
    ensures id !in Next(cfg, s, st).rows ==>
              id in Next(cfg, s, st).removed && Next(cfg, s, st).removed[id] == (s.rows[id], s.now)
  {
  }

  /** Only an insert adds a row: due at once, nothing tried yet. */
  lemma NewRowAfter(cfg: Config, s: State, st: Step, id: EventId)
    requires Possible(s, st) && id !in s.rows
    ensures id in Next(cfg, s, st).rows <==> st.Insert? && st.id == id
    ensures id in Next(cfg, s, st).rows ==> Next(cfg, s, st).rows[id] == Row(st.seqno, 0, s.now, false, false, s.now)
  {
  }

  /** Only a claim statement makes claims, one for each row of its batch, as the row
      stood; and only the claim's own send, mark or crash changes it or ends it. */
  lemma ClaimAfter(cfg: Config, s: State, st: Step, c: Claim)
    requires Possible(s, st)
    ensures c in Next(cfg, s, st).claims
            <==> || (c in s.claims && !((st.Send? || st.MarkDelivered? || st.MarkFailed? || st.Crash?) && st.c == c))
                 || (st.Send? && c == Claim(st.c.batch, st.c.id, st.c.attempts, st.c.deadline, true))
                 || (st.ClaimDue? && c.id in st.batch && c.id in s.rows
                     && c == Claim(s.batches, c.id, s.rows[c.id].attempts, s.now + cfg.lease, false))
  {
  }

  lemma SendsAfter(cfg: Config, s: State, st: Step, id: EventId)
    requires Possible(s, st)
    ensures SendsOf(Next(cfg, s, st), id)
            == if st.Send? && st.c.id == id then SendsOf(s, id) + [st.c.attempts + 1] else SendsOf(s, id)
  {
  }

  // ----- preservation, step by step -----

  lemma LeastDueIsUnclaimed(cfg: Config, s: State, limit: nat, batch: set<EventId>)
    requires Inv(cfg, s) && LeastDue(s.rows, s.now, limit, batch)
    ensures forall c :: c in s.claims ==> c.id !in batch
    ensures batch <= s.rows.Keys
  {
    forall c | c in s.claims
      ensures c.id !in batch
    {
      assert ClaimOk(cfg, s, c);
    }
  }

  lemma ClaimKeepsRows(cfg: Config, s: State, limit: nat, batch: set<EventId>)
    requires Inv(cfg, s) && Enabled(s, ClaimDue(limit, batch))
    ensures var s' := Next(cfg, s, ClaimDue(limit, batch));
            forall id :: id in s'.rows ==> RowOk(cfg, s', id)
  {
    var s' := Next(cfg, s, ClaimDue(limit, batch));
    forall id | id in s'.rows
      ensures RowOk(cfg, s', id)
    {
      assert RowOk(cfg, s, id);
      if Claimed(s, id) {
        var c :| c in s.claims && c.id == id;
        assert c in s'.claims;
      }
    }
  }

  lemma ClaimKeepsInv(cfg: Config, s: State, limit: nat, batch: set<EventId>)
    requires Inv(cfg, s) && cfg.lease > 0 && Enabled(s, ClaimDue(limit, batch))
    ensures Inv(cfg, Next(cfg, s, ClaimDue(limit, batch)))
  {
    var s' := Next(cfg, s, ClaimDue(limit, batch));
    LeastDueIsUnclaimed(cfg, s, limit, batch);
    ClaimKeepsRows(cfg, s, limit, batch);
    forall c | c in s'.claims
      ensures ClaimOk(cfg, s', c)
    {
      if c in s.claims {
        assert ClaimOk(cfg, s, c);
      } else {
        assert RowOk(cfg, s, c.id);
        assert !Claimed(s, c.id);
      }
    }
  }

  lemma SendKeepsInv(cfg: Config, s: State, c: Claim)
    requires Inv(cfg, s) && Enabled(s, Send(c))
    ensures Inv(cfg, Next(cfg, s, Send(c)))
  {
    var s' := Next(cfg, s, Send(c));
    assert ClaimOk(cfg, s, c);
    assert c.(sent := true) in s'.claims;
    forall id | id in s'.rows
      ensures RowOk(cfg, s', id)
    {
      assert RowOk(cfg, s, id);
      if id != c.id && Claimed(s, id) {
        var d :| d in s.claims && d.id == id;
        assert d in s'.claims;
      }
    }
    forall d | d in s'.claims
      ensures ClaimOk(cfg, s', d)
    {
      if d in s.claims {
        assert ClaimOk(cfg, s, d);
      }
    }
  }

  lemma MarkKeepsRows(cfg: Config, s: State, st: Step, id: EventId)
    requires Inv(cfg, s) && Enabled(s, st) && (st.MarkDelivered? || st.MarkFailed?)
    requires id in s.rows
    ensures id in Next(cfg, s, st).rows && RowOk(cfg, Next(cfg, s, st), id)
  {
    assert ClaimOk(cfg, s, st.c) && RowOk(cfg, s, id);
    if id != st.c.id && Claimed(s, id) {
      var d :| d in s.claims && d.id == id;
      assert d in Next(cfg, s, st).claims;
    }
  }

  lemma MarkKeepsInv(cfg: Config, s: State, st: Step)
    requires Inv(cfg, s) && Enabled(s, st) && (st.MarkDelivered? || st.MarkFailed?)
    ensures Inv(cfg, Next(cfg, s, st))
  {
    var s' := Next(cfg, s, st);
    assert s'.rows.Keys == s.rows.Keys;
    forall id | id in s'.rows
      ensures RowOk(cfg, s', id)
    {
      MarkKeepsRows(cfg, s, st, id);
    }
    forall d | d in s'.claims
      ensures ClaimOk(cfg, s', d)
    {
      assert ClaimOk(cfg, s, st.c) && ClaimOk(cfg, s, d);
    }
  }

  /** The clock, inserts and the cleaners. */
  lemma OtherKeepsAccounts(cfg: Config, s: State, st: Step)
    requires Inv(cfg, s) && Enabled(s, st) && (st.Tick? || st.Insert? || st.CleanSettled? || st.CleanStuck?)
    ensures Accounted(cfg, Next(cfg, s, st))
    ensures forall id :: id in Next(cfg, s, st).rows && id in s.rows ==> Next(cfg, s, st).rows[id] == s.rows[id]
  {
  }

  lemma OtherKeepsInv(cfg: Config, s: State, st: Step)
    requires Inv(cfg, s) && Enabled(s, st) && (st.Tick? || st.Insert? || st.CleanSettled? || st.CleanStuck?)
    ensures Inv(cfg, Next(cfg, s, st))
  {
    var s' := Next(cfg, s, st);
    OtherKeepsAccounts(cfg, s, st);
    assert s'.claims == s.claims && s'.sends == s.sends;
    forall c | c in s'.claims
      ensures ClaimOk(cfg, s', c)
    {
      assert ClaimOk(cfg, s, c);
    }
    forall id | id in s'.rows
      ensures RowOk(cfg, s', id)
    {
      if id in s.rows {
        assert RowOk(cfg, s, id);
        assert Claimed(s', id) <==> Claimed(s, id);
      }
    }
  }

  lemma StepKeepsInv(cfg: Config, s: State, st: Step)
    requires Inv(cfg, s) && cfg.lease > 0 && Enabled(s, st)
    ensures Inv(cfg, Next(cfg, s, st))
  {
    match st
    case ClaimDue(limit, batch) => ClaimKeepsInv(cfg, s, limit, batch);
    case Send(c) => SendKeepsInv(cfg, s, c);
    case MarkDelivered(_) => MarkKeepsInv(cfg, s, st);
    case MarkFailed(_, _) => MarkKeepsInv(cfg, s, st);
    case _ => OtherKeepsInv(cfg, s, st);
  }

  lemma {:induction false} RunKeepsInv(cfg: Config, s: State, steps: seq<Step>)
    requires Inv(cfg, s) && cfg.lease > 0 && ValidRun(cfg, s, steps)
    ensures PossibleRun(cfg, s, steps) && Inv(cfg, Run(cfg, s, steps))
    decreases |steps|
  {
    if steps != [] {
      StepKeepsInv(cfg, s, steps[0]);
      RunKeepsInv(cfg, Next(cfg, s, steps[0]), steps[1..]);
    }
  }

  // ----- one worker at a time, attempts in order -----

  /** If every claim is marked before its lease ends, at most one unfinished claim
      exists on a row, and the attempt numbers sent for an event are 1, 2, 3, …
      without repeat, never more than the configured maximum. */
  lemma DeliveryIsOrderly(cfg: Config, steps: seq<Step>)
    requires cfg.lease > 0 && ValidRun(cfg, INITIAL, steps)
    ensures PossibleRun(cfg, INITIAL, steps)
    ensures var s := Run(cfg, INITIAL, steps);
            && (forall c, d :: c in s.claims && d in s.claims && c.id == d.id ==> c == d)
            && (forall id :: Consecutive(SendsOf(s, id)) && |SendsOf(s, id)| <= Cap(cfg))
            && (forall c :: c in s.claims && c.sent ==>
                  && SendsOf(s, c.id) != []
                  && c.attempts + 1 == SendsOf(s, c.id)[|SendsOf(s, c.id)| - 1])
  {
    RunKeepsInv(cfg, INITIAL, steps);
    var s := Run(cfg, INITIAL, steps);
    forall c, d | c in s.claims && d in s.claims && c.id == d.id
      ensures c == d
    {
      assert ClaimOk(cfg, s, c);
    }
    forall c | c in s.claims && c.sent
      ensures SendsOf(s, c.id) != [] && c.attempts + 1 == SendsOf(s, c.id)[|SendsOf(s, c.id)| - 1]
    {
      assert ClaimOk(cfg, s, c);
    }
  }

  // ----- finality -----

  /** A settled row stays as it is until the cleaner takes it, and is never sent
      again. */
  ghost predicate StillSettled(s: State, s': State, id: EventId)
    requires id in s.rows
  {
    && SendsOf(s', id) == SendsOf(s, id)
    && if id in s'.rows then s'.rows[id] == s.rows[id]
       else id in s'.removed && s'.removed[id].0 == s.rows[id]
  }

  lemma SettledStep(cfg: Config, s: State, st: Step, id: EventId)
    requires Inv(cfg, s) && Enabled(s, st)
    requires id in s.rows && !s.rows[id].Pending()
    ensures StillSettled(s, Next(cfg, s, st), id)
  {
    if st.Send? || st.MarkDelivered? || st.MarkFailed? {
      assert ClaimOk(cfg, s, st.c);
    }
  }

  lemma RemovedStep(cfg: Config, s: State, st: Step, id: EventId)
    requires Inv(cfg, s) && Enabled(s, st)
    requires id in s.removed
    ensures var s' := Next(cfg, s, st);
            id in s'.removed && s'.removed[id] == s.removed[id]
            && (!Claimed(s, id) ==> !Claimed(s', id) && SendsOf(s', id) == SendsOf(s, id))
  {
  }

  lemma SettledIsUnclaimed(cfg: Config, s: State, id: EventId)
    requires Inv(cfg, s) && id in s.rows && !s.rows[id].Pending()
    ensures !Claimed(s, id)
  {
    forall c | c in s.claims
      ensures c.id != id
    {
      assert ClaimOk(cfg, s, c);
    }
  }

  /** Delivered and given up are both final under the lease discipline. */
  lemma {:induction false} SettledIsFinal(cfg: Config, s: State, steps: seq<Step>, id: EventId)
    requires Inv(cfg, s) && cfg.lease > 0 && ValidRun(cfg, s, steps)
    requires id in s.rows && !s.rows[id].Pending()
    ensures PossibleRun(cfg, s, steps)
    ensures StillSettled(s, Run(cfg, s, steps), id)
    decreases |steps|
  {
    ValidIsPossible(cfg, s, steps);
    if steps != [] {
      var s1 := Next(cfg, s, steps[0]);
      StepKeepsInv(cfg, s, steps[0]);
      SettledStep(cfg, s, steps[0], id);
      if id in s1.rows {
        SettledIsFinal(cfg, s1, steps[1..], id);
      } else {
        SettledIsUnclaimed(cfg, s, id);
        RemovedIsFinal(cfg, s1, steps[1..], id);
      }
    }
  }

  lemma {:induction false} RemovedIsFinal(cfg: Config, s: State, steps: seq<Step>, id: EventId)
    requires Inv(cfg, s) && cfg.lease > 0 && ValidRun(cfg, s, steps)
    requires id in s.removed && !Claimed(s, id)
    ensures PossibleRun(cfg, s, steps)
    ensures var s' := Run(cfg, s, steps);
            id in s'.removed && s'.removed[id] == s.removed[id] && id !in s'.rows && SendsOf(s', id) == SendsOf(s, id)
    decreases |steps|
  {
    ValidIsPossible(cfg, s, steps);
    if steps != [] {
      StepKeepsInv(cfg, s, steps[0]);
      RemovedStep(cfg, s, steps[0], id);
      RemovedIsFinal(cfg, Next(cfg, s, steps[0]), steps[1..], id);
    }
  }

  /** Ids are never reused, with or without discipline. */
  ghost predicate Tidy(s: State) {
    s.rows.Keys + s.removed.Keys <= s.inserted && s.rows.Keys !! s.removed.Keys
  }

  ghost predicate DeliveredAs(s: State, id: EventId) {
    if id in s.rows then s.rows[id].delivered else id in s.removed && s.removed[id].0.delivered
  }

  /** Delivered is final even when workers die or overrun their leases, and no
      claim statement run after delivery picks the row up again. */
  lemma {:induction false} DeliveredIsAlwaysFinal(cfg: Config, s: State, steps: seq<Step>, id: EventId)
    requires Tidy(s) && DeliveredAs(s, id) && PossibleRun(cfg, s, steps)
    ensures DeliveredAs(Run(cfg, s, steps), id)
    ensures forall c :: c in Run(cfg, s, steps).claims && c.id == id ==>
              c in s.claims || c.(sent := false) in s.claims
    decreases |steps|
  {
    if steps != [] {
      var s1 := Next(cfg, s, steps[0]);
      DeliveredIsAlwaysFinal(cfg, s1, steps[1..], id);
    }
  }

  /** What reopens a row that was given up on, in any state: a failed mark by a
      worker whose claim was not the last attempt, and nothing else. */
  lemma ReopenedIff(cfg: Config, s: State, st: Step, id: EventId)
    requires Possible(s, st) && Tidy(s) && id in s.rows && s.rows[id].failed && !s.rows[id].delivered
    requires id in Next(cfg, s, st).rows
    ensures Next(cfg, s, st).rows[id].Pending()
            <==> st.MarkFailed? && st.c.id == id && st.c.attempts + 1 < cfg.maxAttempts
  {
  }

  lemma {:induction false} RunOneMore(cfg: Config, s: State, steps: seq<Step>, st: Step)
    requires PossibleRun(cfg, s, steps) && Possible(Run(cfg, s, steps), st)
    ensures PossibleRun(cfg, s, steps + [st]) && Run(cfg, s, steps + [st]) == Next(cfg, Run(cfg, s, steps), st)
    decreases |steps|
  {
    if steps == [] {
      assert steps + [st] == [st];
      assert [st][1..] == [];
    } else {
      assert (steps + [st])[1..] == steps[1..] + [st];
      RunOneMore(cfg, Next(cfg, s, steps[0]), steps[1..], st);
    }
  }

  const TWO_ATTEMPTS := Config(10, 2, 0, 0)

  /** A worker claims and sends, and stalls past its lease; a second one claims the
      same event and fails. */
  lemma StalledWorker() returns (steps: seq<Step>)
    ensures PossibleRun(TWO_ATTEMPTS, INITIAL, steps)
    ensures var s := Run(TWO_ATTEMPTS, INITIAL, steps);
            && s.now == 10 && s.batches == 2 && s.claims == {Claim(0, 7, 0, 10, true)}
            && s.rows == map[7 := Row(0, 1, 10, false, false, 0)]
  {
    var cfg := TWO_ATTEMPTS;
    steps := [];
    var s := INITIAL;
    RunOneMore(cfg, INITIAL, steps, Insert(7, 0));
    steps, s := steps + [Insert(7, 0)], Next(cfg, s, Insert(7, 0));
    var a := Claim(0, 7, 0, 10, false);
    s, steps := ClaimAndSend(cfg, s, steps, a, Row(0, 0, 0, false, false, 0));
    RunOneMore(cfg, INITIAL, steps, Tick(10));
    steps, s := steps + [Tick(10)], Next(cfg, s, Tick(10));
    var b := Claim(1, 7, 0, 20, false);
    s, steps := ClaimAndSend(cfg, s, steps, b, Row(0, 0, 10, false, false, 0));
    var fails := MarkFailed(b.(sent := true), 10);
    RunOneMore(cfg, INITIAL, steps, fails);
    steps, s := steps + [fails], Next(cfg, s, fails);
  }

  lemma OnlyRowIsClaimed(cfg: Config, s: State, c: Claim, r: Row)
    requires s.rows == map[c.id := r] && r.Pending() && r.nextAttempt <= s.now
    requires c == Claim(s.batches, c.id, r.attempts, s.now + cfg.lease, false)
    ensures Possible(s, ClaimDue(1, {c.id}))
    ensures var s' := Next(cfg, s, ClaimDue(1, {c.id}));
            && s'.now == s.now && s'.batches == s.batches + 1 && s'.claims == s.claims + {c}
            && s'.rows == map[c.id := r.(nextAttempt := s.now + cfg.lease)]
  {
    assert LeastDue(s.rows, s.now, 1, {c.id});
    assert NewClaims(cfg, s, {c.id}) == {c};
  }

  /** The only row is due: claim it, and send. */
  lemma ClaimAndSend(cfg: Config, s: State, steps: seq<Step>, c: Claim, r: Row) returns (s': State, steps': seq<Step>)
    requires PossibleRun(cfg, INITIAL, steps) && s == Run(cfg, INITIAL, steps)
    requires s.rows == map[c.id := r] && r.Pending() && r.nextAttempt <= s.now
    requires c == Claim(s.batches, c.id, r.attempts, s.now + cfg.lease, false)
    requires c !in s.claims
    ensures PossibleRun(cfg, INITIAL, steps') && s' == Run(cfg, INITIAL, steps')
    ensures s'.now == s.now && s'.batches == s.batches + 1 && s'.claims == s.claims + {c.(sent := true)}
    ensures s'.rows == map[c.id := r.(nextAttempt := s.now + cfg.lease)]
  {
    var claim := ClaimDue(1, {c.id});
    OnlyRowIsClaimed(cfg, s, c, r);
    RunOneMore(cfg, INITIAL, steps, claim);
    var s1 := Next(cfg, s, claim);
    RunOneMore(cfg, INITIAL, steps + [claim], Send(c));
    s', steps' := Next(cfg, s1, Send(c)), (steps + [claim]) + [Send(c)];
  }

  /** Such a mark does come about when a lease is overrun: from the empty outbox to a
      row given up after its second attempt, which the stalled worker's mark of the
      first attempt then reopens. */
  lemma LateMarkReopensGivenUp() returns (steps: seq<Step>, late: Step)
    ensures PossibleRun(TWO_ATTEMPTS, INITIAL, steps)
    ensures var s := Run(TWO_ATTEMPTS, INITIAL, steps);
            && 7 in s.rows && s.rows[7].failed && !s.rows[7].Pending() && Possible(s, late)
            && 7 in Next(TWO_ATTEMPTS, s, late).rows && Next(TWO_ATTEMPTS, s, late).rows[7].Pending()
  {
    var cfg := TWO_ATTEMPTS;
    steps := StalledWorker();
    var s := Run(cfg, INITIAL, steps);
    var last := Claim(2, 7, 1, 20, false);
    s, steps := ClaimAndSend(cfg, s, steps, last, Row(0, 1, 10, false, false, 0));
    var givesUp := MarkFailed(last.(sent := true), 60);
    RunOneMore(cfg, INITIAL, steps, givesUp);
    steps := steps + [givesUp];
    late := MarkFailed(Claim(0, 7, 0, 10, true), 70);
  }

  // ----- conservation and termination -----

  datatype Fate = IsDelivered | IsGivenUp | IsPending | RemovedSettled | RemovedStuck

  ghost predicate HasFate(cfg: Config, s: State, id: EventId, fate: Fate) {
    match fate
    case IsDelivered => id in s.rows && s.rows[id].delivered
    case IsGivenUp => id in s.rows && s.rows[id].failed
    case IsPending => id in s.rows && s.rows[id].Pending()
    case RemovedSettled =>
      id in s.removed && var (r, at) := s.removed[id];
      !r.Pending() && cfg.retention > 0 && r.createdAt < at - cfg.retention
    case RemovedStuck =>
      id in s.removed && var (r, at) := s.removed[id];
      r.Pending() && cfg.maxAge > 0 && r.createdAt < at - cfg.maxAge
  }

  /** Every event ever inserted has exactly one fate: none is lost, none is in two
      places. */
  lemma EveryEventHasOneFate(cfg: Config, steps: seq<Step>, id: EventId)
    requires cfg.lease > 0 && ValidRun(cfg, INITIAL, steps)
    ensures PossibleRun(cfg, INITIAL, steps)
    ensures var s := Run(cfg, INITIAL, steps);
            && (id in s.inserted <==> exists fate :: HasFate(cfg, s, id, fate))
            && forall f, g :: HasFate(cfg, s, id, f) && HasFate(cfg, s, id, g) ==> f == g
  {
    RunKeepsInv(cfg, INITIAL, steps);
    var s := Run(cfg, INITIAL, steps);
    if id in s.rows {
      assert RowOk(cfg, s, id);
      var fate := if s.rows[id].delivered then IsDelivered else if s.rows[id].failed then IsGivenUp else IsPending;
      assert HasFate(cfg, s, id, fate);
    } else if id in s.removed {
      var fate := if s.removed[id].0.Pending() then RemovedStuck else RemovedSettled;
      assert HasFate(cfg, s, id, fate);
    }
  }

  /** Attempts left on a row, and over all pending rows. */
  function Left(cfg: Config, r: Row): nat {
    if r.Pending() && r.attempts < Cap(cfg) then Cap(cfg) - r.attempts else 0
  }

  ghost function Budget(cfg: Config, rows: Rows): nat
    decreases |rows|
  {
    if rows == map[] then 0
    else
      var id :| id in rows;
      Left(cfg, rows[id]) + Budget(cfg, rows - {id})
  }

  /** The sum does not depend on the order in which the rows are taken. */
  lemma {:induction false} BudgetSplits(cfg: Config, rows: Rows, id: EventId)
    requires id in rows
    ensures Budget(cfg, rows) == Left(cfg, rows[id]) + Budget(cfg, rows - {id})
    decreases |rows|
  {
    var first :| first in rows && Budget(cfg, rows) == Left(cfg, rows[first]) + Budget(cfg, rows - {first});
    if first != id {
      BudgetSplits(cfg, rows - {first}, id);
      BudgetSplits(cfg, rows - {id}, first);
      assert (rows - {first}) - {id} == (rows - {id}) - {first};
    }
  }

  /** Each failed mark uses up an attempt of its row, and gives up exactly at the last. */
  lemma FailedMarkSpendsBudget(cfg: Config, s: State, c: Claim, next: Time)
    requires Inv(cfg, s) && Enabled(s, MarkFailed(c, next)) && c.id in s.rows
    ensures var s' := Next(cfg, s, MarkFailed(c, next));
            && Budget(cfg, s'.rows) < Budget(cfg, s.rows)
            && s'.rows[c.id].attempts == s.rows[c.id].attempts + 1 <= Cap(cfg)
            && (s'.rows[c.id].failed <==> c.attempts + 1 == Cap(cfg))
  {
    var s' := Next(cfg, s, MarkFailed(c, next));
    assert ClaimOk(cfg, s, c) && RowOk(cfg, s, c.id);
    BudgetSplits(cfg, s.rows, c.id);
    BudgetSplits(cfg, s'.rows, c.id);
    assert s'.rows - {c.id} == s.rows - {c.id};
  }

  /** No step but an insert raises the budget, so without new events the failed
      marks of a run are bounded. */
  function FailedMarks(s: State, cfg: Config, steps: seq<Step>): nat
    requires PossibleRun(cfg, s, steps)
    decreases |steps|
  {
    if steps == [] then 0
    else
      (if steps[0].MarkFailed? && steps[0].c.id in s.rows then 1 else 0)
      + FailedMarks(Next(cfg, s, steps[0]), cfg, steps[1..])
  }

  lemma {:induction false} BudgetOfSubset(cfg: Config, rows: Rows, gone: set<EventId>)
    requires gone <= rows.Keys
    ensures Budget(cfg, rows - gone) <= Budget(cfg, rows)
    decreases gone
  {
    if gone == {} {
      assert rows - gone == rows;
    } else {
      var id :| id in gone;
      BudgetSplits(cfg, rows, id);
      BudgetOfSubset(cfg, rows - {id}, gone - {id});
      assert rows - gone == (rows - {id}) - (gone - {id});
    }
  }

  lemma {:induction false} LeasingKeepsBudget(cfg: Config, rows: Rows, rows': Rows)
    requires rows'.Keys == rows.Keys
    requires forall id :: id in rows ==> Left(cfg, rows'[id]) == Left(cfg, rows[id])
    ensures Budget(cfg, rows') == Budget(cfg, rows)
    decreases |rows|
  {
    if rows == map[] {
      assert rows' == map[];
    } else {
      var id :| id in rows;
      BudgetSplits(cfg, rows, id);
      BudgetSplits(cfg, rows', id);
      LeasingKeepsBudget(cfg, rows - {id}, rows' - {id});
    }
  }

  lemma DeliveredMarkSpendsNoBudget(cfg: Config, s: State, c: Claim)
    requires c.id in s.rows
    ensures Budget(cfg, DeliveredStep(s, c).rows) <= Budget(cfg, s.rows)
  {
    var s' := DeliveredStep(s, c);
    BudgetSplits(cfg, s.rows, c.id);
    BudgetSplits(cfg, s'.rows, c.id);
    assert s'.rows - {c.id} == s.rows - {c.id};
  }

  lemma RemovalSpendsNoBudget(cfg: Config, s: State, gone: set<EventId>)
    requires gone <= s.rows.Keys
    ensures Budget(cfg, Remove(s, gone).rows) <= Budget(cfg, s.rows)
  {
    BudgetOfSubset(cfg, s.rows, gone);
  }

  lemma ClaimSpendsNoBudget(cfg: Config, s: State, batch: set<EventId>)
    requires batch <= s.rows.Keys
    ensures Budget(cfg, ClaimStep(cfg, s, batch).rows) == Budget(cfg, s.rows)
  {
    LeasingKeepsBudget(cfg, s.rows, Leased(cfg, s, batch));
  }

  lemma CleanSettledSpendsNoBudget(cfg: Config, s: State)
    ensures Budget(cfg, CleanSettledStep(cfg, s).rows) <= Budget(cfg, s.rows)
  {
    RemovalSpendsNoBudget(cfg, s, SettledBefore(s.rows, s.now - cfg.retention));
  }

  lemma CleanStuckSpendsNoBudget(cfg: Config, s: State)
    ensures Budget(cfg, CleanStuckStep(cfg, s).rows) <= Budget(cfg, s.rows)
  {
    RemovalSpendsNoBudget(cfg, s, StuckBefore(s.rows, s.now - cfg.maxAge));
  }

  lemma QuietStepSpendsNoBudget(cfg: Config, s: State, st: Step)
    requires Possible(s, st) && !st.Insert? && !st.MarkFailed?
    ensures Budget(cfg, Next(cfg, s, st).rows) <= Budget(cfg, s.rows)
  {
    match st
    case MarkDelivered(c) =>
      if c.id in s.rows {
        DeliveredMarkSpendsNoBudget(cfg, s, c);
      }
    case ClaimDue(limit, batch) => ClaimSpendsNoBudget(cfg, s, batch);
    case CleanSettled => CleanSettledSpendsNoBudget(cfg, s);
    case CleanStuck => CleanStuckSpendsNoBudget(cfg, s);
    case _ =>
  }

  lemma BudgetStep(cfg: Config, s: State, st: Step)
    requires Inv(cfg, s) && Enabled(s, st) && !st.Insert?
    ensures Budget(cfg, Next(cfg, s, st).rows) + (if st.MarkFailed? && st.c.id in s.rows then 1 else 0)
            <= Budget(cfg, s.rows)
  {
    if !st.MarkFailed? {
      QuietStepSpendsNoBudget(cfg, s, st);
    } else if st.c.id in s.rows {
      FailedMarkSpendsBudget(cfg, s, st.c, st.next);
    }
  }

  lemma {:induction false} FailedMarksAreBounded(cfg: Config, s: State, steps: seq<Step>)
    requires Inv(cfg, s) && cfg.lease > 0 && ValidRun(cfg, s, steps)
    requires forall i :: 0 <= i < |steps| ==> !steps[i].Insert?
    ensures PossibleRun(cfg, s, steps)
    ensures FailedMarks(s, cfg, steps) <= Budget(cfg, s.rows)
    decreases |steps|
  {
    ValidIsPossible(cfg, s, steps);
    if steps != [] {
      StepKeepsInv(cfg, s, steps[0]);
      BudgetStep(cfg, s, steps[0]);
      FailedMarksAreBounded(cfg, Next(cfg, s, steps[0]), steps[1..]);
    }
  }

  // ----- marks of one event -----

  /** How often an event is marked along a run, delivered or failed, whatever else is
      inserted meanwhile. */
  function MarksOf(cfg: Config, s: State, steps: seq<Step>, id: EventId): nat
    requires PossibleRun(cfg, s, steps)
    decreases |steps|
  {
    if steps == [] then 0
    else
      (if (steps[0].MarkDelivered? || steps[0].MarkFailed?) && steps[0].c.id == id then 1 else 0)
      + MarksOf(cfg, Next(cfg, s, steps[0]), steps[1..], id)
  }

  /** An attempt that has been sent and not yet marked. */
  ghost predicate Outstanding(s: State, id: EventId) {
    exists c :: c in s.claims && c.id == id && c.sent
  }

  ghost function Owed(s: State, id: EventId): nat {
    if Outstanding(s, id) then 1 else 0
  }

  lemma MarkSettlesWhatIsOwed(cfg: Config, s: State, st: Step, id: EventId)
    requires Inv(cfg, s) && Enabled(s, st) && (st.MarkDelivered? || st.MarkFailed?)
    ensures var s' := Next(cfg, s, st);
            && s'.sends == s.sends
            && Owed(s', id) + (if st.c.id == id then 1 else 0) == Owed(s, id)
  {
    assert ClaimOk(cfg, s, st.c);
    var s' := Next(cfg, s, st);
    if st.c.id != id && Outstanding(s, id) {
      var c :| c in s.claims && c.id == id && c.sent;
      assert c in s'.claims;
    }
  }

  lemma SendIsOwed(cfg: Config, s: State, c: Claim, id: EventId)
    requires Inv(cfg, s) && Enabled(s, Send(c))
    ensures var s' := Next(cfg, s, Send(c));
            |SendsOf(s', id)| - Owed(s', id) == |SendsOf(s, id)| - Owed(s, id)
  {
    var s' := Next(cfg, s, Send(c));
    assert ClaimOk(cfg, s, c);
    assert c.(sent := true) in s'.claims;
    if c.id != id && Outstanding(s, id) {
      var d :| d in s.claims && d.id == id && d.sent;
      assert d in s'.claims;
    }
  }

  lemma OtherOwesNothing(cfg: Config, s: State, st: Step, id: EventId)
    requires Enabled(s, st) && !st.MarkDelivered? && !st.MarkFailed? && !st.Send?
    ensures Next(cfg, s, st).sends == s.sends && Owed(Next(cfg, s, st), id) == Owed(s, id)
  {
    var s' := Next(cfg, s, st);
    if Outstanding(s, id) {
      var c :| c in s.claims && c.id == id && c.sent;
      assert c in s'.claims;
    }
  }

  lemma {:induction false} MarksAreSends(cfg: Config, s: State, steps: seq<Step>, id: EventId)
    requires Inv(cfg, s) && cfg.lease > 0 && ValidRun(cfg, s, steps)
    ensures PossibleRun(cfg, s, steps)
    ensures var s' := Run(cfg, s, steps);
            MarksOf(cfg, s, steps, id) == |SendsOf(s', id)| - Owed(s', id) - |SendsOf(s, id)| + Owed(s, id)
    decreases |steps|
  {
    ValidIsPossible(cfg, s, steps);
    if steps != [] {
      var st := steps[0];
      if st.MarkDelivered? || st.MarkFailed? {
        MarkSettlesWhatIsOwed(cfg, s, st, id);
      } else if st.Send? {
        SendIsOwed(cfg, s, st.c, id);
      } else {
        OtherOwesNothing(cfg, s, st, id);
      }
      StepKeepsInv(cfg, s, st);
      MarksAreSends(cfg, Next(cfg, s, st), steps[1..], id);
    }
  }

  /** Over a whole run, new events or not, an event is marked once for each attempt
      sent except the one still out, and so at most Cap times. */
  lemma EventIsMarkedAtMostCapTimes(cfg: Config, steps: seq<Step>, id: EventId)
    requires cfg.lease > 0 && ValidRun(cfg, INITIAL, steps)
    ensures PossibleRun(cfg, INITIAL, steps)
    ensures var s := Run(cfg, INITIAL, steps);
            MarksOf(cfg, INITIAL, steps, id) == |SendsOf(s, id)| - Owed(s, id) <= Cap(cfg)
  {
    RunKeepsInv(cfg, INITIAL, steps);
    MarksAreSends(cfg, INITIAL, steps, id);
  }
}
