/** Any number of dispatchers over one outbox. Each has its own place in the dispatch
    loop, and every statement of every one of them, every answer, the clock, the writers
    and the two cleaners interleave freely. The table is all they share: there are no
    claims here, only workers that remember their batch. */
module DispatchSystem {
  import opened Common
  import opened OutboxLeases
  import opened WebhookDispatcher
  import opened DispatchRefinement
  import OutboxTheorems

  type WorkerId = nat

  datatype Setup = Setup(protocol: Config, policy: Policy, batchSize: nat, timeout: nat)

  /** Where a dispatcher stands: before event i of its batch, or waiting for the answer
      to it. The batch number and the time of the claim are history. */
  datatype Worker =
    | Idle
    | Busy(events: seq<Claimed>, i: nat, sentAt: Option<Time>, batch: nat, claimedAt: Time)

  datatype Sys = Sys(
    now: Time,
    rows: Rows,
    workers: map<WorkerId, Worker>,
    // history
    batches: nat,
    inserted: set<EventId>,
    removed: map<EventId, (Row, Time)>,
    sends: map<EventId, seq<nat>>)

  datatype Act =
    | Wait(d: nat)
    | Emit(id: EventId, seqno: nat)
    | ClaimBatch(w: WorkerId, events: seq<Claimed>)
    | SendNext(w: WorkerId)
    | MarkAnswer(w: WorkerId, ok: bool)
    | Abandon(w: WorkerId)  // the event at hand is left as it is; a worker that dies does so for all the rest
    | SweepSettled
    | SweepStuck

  function Start(ws: set<WorkerId>): Sys {
    Sys(0, map[], map w | w in ws :: Idle, 0, {}, map[], map[])
  }

  predicate IsBusy(sys: Sys, w: WorkerId) {
    w in sys.workers && sys.workers[w].Busy?
  }

  ghost predicate Can(setup: Setup, sys: Sys, act: Act) {
    match act
    case Wait(_) => true
    case Emit(id, _) => id !in sys.inserted
    case ClaimBatch(w, events) =>
      w in sys.workers && sys.workers[w].Idle? && IsBatch(sys.rows, sys.now, setup.batchSize, events)
    case SendNext(w) => IsBusy(sys, w) && sys.workers[w].i < |sys.workers[w].events| && sys.workers[w].sentAt.None?
    case MarkAnswer(w, _) => IsBusy(sys, w) && sys.workers[w].i < |sys.workers[w].events| && sys.workers[w].sentAt.Some?
    case Abandon(w) => IsBusy(sys, w) && sys.workers[w].i < |sys.workers[w].events|
    case SweepSettled => true
    case SweepStuck => true
  }

  function Advanced(wk: Worker): Worker
    requires wk.Busy?
  {
    if wk.i + 1 >= |wk.events| then Idle else wk.(i := wk.i + 1, sentAt := None)
  }

  function SentSoFar(sys: Sys, id: EventId): seq<nat> {
    if id in sys.sends then sys.sends[id] else []
  }

  function Swept(sys: Sys, gone: set<EventId>): Sys
    requires gone <= sys.rows.Keys
  {
    sys.(rows := sys.rows - gone, removed := sys.removed + Obituary(sys.rows, gone, sys.now))
  }

  function SettledSwept(setup: Setup, sys: Sys): Sys {
    if setup.protocol.retention > 0 then Swept(sys, SettledBefore(sys.rows, sys.now - setup.protocol.retention)) else sys
  }

  function StuckSwept(setup: Setup, sys: Sys): Sys {
    if setup.protocol.maxAge > 0 then Swept(sys, StuckBefore(sys.rows, sys.now - setup.protocol.maxAge)) else sys
  }

  function ClaimEffect(setup: Setup, sys: Sys, w: WorkerId, events: seq<Claimed>): Sys {
    sys.(rows := LeaseRows(sys.rows, Ids(events), sys.now + setup.protocol.lease),
         workers := sys.workers[w := if events == [] then Idle else Busy(events, 0, None, sys.batches, sys.now)],
         batches := sys.batches + 1)
  }

  function SendEffect(sys: Sys, w: WorkerId): Sys
    requires IsBusy(sys, w) && sys.workers[w].i < |sys.workers[w].events|
  {
    var wk := sys.workers[w];
    var e := wk.events[wk.i];
    sys.(workers := sys.workers[w := wk.(sentAt := Some(sys.now))],
         sends := sys.sends[e.id := SentSoFar(sys, e.id) + [e.attempts + 1]])
  }

  function MarkEffect(setup: Setup, sys: Sys, w: WorkerId, ok: bool): Sys
    requires IsBusy(sys, w) && sys.workers[w].i < |sys.workers[w].events|
  {
    var wk := sys.workers[w];
    var e := wk.events[wk.i];
    var rows := if e.id in sys.rows then
                  sys.rows[e.id := MarkRow(setup.policy, sys.rows[e.id], e, Response(ok, 0), sys.now)]
                else sys.rows;
    sys.(rows := rows, workers := sys.workers[w := Advanced(wk)])
  }

  ghost function Do(setup: Setup, sys: Sys, act: Act): Sys
    requires Can(setup, sys, act)
  {
    match act
    case Wait(d) => sys.(now := sys.now + d)
    case Emit(id, seqno) =>
      sys.(rows := sys.rows[id := Row(seqno, 0, sys.now, false, false, sys.now)], inserted := sys.inserted + {id})
    case ClaimBatch(w, events) => ClaimEffect(setup, sys, w, events)
    case SendNext(w) => SendEffect(sys, w)
    case MarkAnswer(w, ok) => MarkEffect(setup, sys, w, ok)
    case Abandon(w) => sys.(workers := sys.workers[w := Advanced(sys.workers[w])])
    case SweepSettled => SettledSwept(setup, sys)
    case SweepStuck => StuckSwept(setup, sys)
  }

  ghost predicate CanAll(setup: Setup, sys: Sys, acts: seq<Act>)
    decreases |acts|
  {
    acts == [] || (Can(setup, sys, acts[0]) && CanAll(setup, Do(setup, sys, acts[0]), acts[1..]))
  }

  ghost function DoAll(setup: Setup, sys: Sys, acts: seq<Act>): Sys
    requires CanAll(setup, sys, acts)
    decreases |acts|
  {
    if acts == [] then sys else DoAll(setup, Do(setup, sys, acts[0]), acts[1..])
  }

  // ----- the protocol behind it -----

  /** The claim a busy worker holds on the j-th event of its batch. */
  function Held(setup: Setup, wk: Worker, j: nat): Claim
    requires wk.Busy? && j < |wk.events|
  {
    Claim(wk.batch, wk.events[j].id, wk.events[j].attempts, wk.claimedAt + setup.protocol.lease,
          j == wk.i && wk.sentAt.Some?)
  }

  function Current(setup: Setup, sys: Sys, w: WorkerId): Claim
    requires IsBusy(sys, w) && sys.workers[w].i < |sys.workers[w].events|
  {
    Held(setup, sys.workers[w], sys.workers[w].i)
  }

  /** Each act is one step of the lease protocol. */
  ghost function StepOf(setup: Setup, sys: Sys, act: Act): Step
    requires Can(setup, sys, act)
  {
    match act
    case Wait(d) => Tick(d)
    case Emit(id, seqno) => Insert(id, seqno)
    case ClaimBatch(_, events) => ClaimDue(setup.batchSize, Ids(events))
    case SendNext(w) => Send(Current(setup, sys, w))
    case MarkAnswer(w, ok) => MarkStep(setup.policy, Current(setup, sys, w), Response(ok, 0), sys.now)
    case Abandon(w) => Crash(Current(setup, sys, w))
    case SweepSettled => CleanSettled
    case SweepStuck => CleanStuck
  }

  ghost function StepsOf(setup: Setup, sys: Sys, acts: seq<Act>): seq<Step>
    requires CanAll(setup, sys, acts)
    decreases |acts|
  {
    if acts == [] then []
    else [StepOf(setup, sys, acts[0])] + StepsOf(setup, Do(setup, sys, acts[0]), acts[1..])
  }

  predicate Holds(wk: Worker, j: nat) {
    wk.Busy? && wk.i <= j < |wk.events|
  }

  ghost predicate HeldBy(setup: Setup, wk: Worker, c: Claim) {
    exists j :: Holds(wk, j) && Held(setup, wk, j) == c
  }

  ghost predicate HeldBySome(setup: Setup, workers: map<WorkerId, Worker>, c: Claim) {
    exists w :: w in workers && HeldBy(setup, workers[w], c)
  }

  ghost predicate WorkerOk(wk: Worker, batches: nat) {
    wk.Busy? ==> wk.i < |wk.events| && Distinct(wk.events) && wk.batch < batches
  }

  ghost predicate WorkersOk(workers: map<WorkerId, Worker>, batches: nat) {
    && (forall w :: w in workers ==> WorkerOk(workers[w], batches))
    && (forall v, w :: v in workers && w in workers && v != w && workers[v].Busy? && workers[w].Busy? ==>
          workers[v].batch != workers[w].batch)
  }

  /** The protocol state with this table, clock and history, and these claims. */
  function StateOf(sys: Sys, claims: set<Claim>): State {
    State(sys.now, sys.rows, claims, sys.batches, sys.inserted, sys.removed, sys.sends)
  }

  /** The same table, clock and history; and the protocol's claims are what the workers
      remember. */
  ghost predicate Same(setup: Setup, sys: Sys, s: State) {
    && s == StateOf(sys, s.claims)
    && WorkersOk(sys.workers, sys.batches)
    && SameClaims(setup, sys.workers, s.claims)
  }

  ghost predicate SameClaims(setup: Setup, workers: map<WorkerId, Worker>, claims: set<Claim>) {
    forall c :: c in claims <==> HeldBySome(setup, workers, c)
  }

  lemma StartIsInitial(setup: Setup, ws: set<WorkerId>)
    ensures Same(setup, Start(ws), INITIAL)
  {
  }

  // ----- what changes when one worker moves -----

  lemma HeldAfterChange(setup: Setup, workers: map<WorkerId, Worker>, w: WorkerId, wk: Worker, c: Claim)
    ensures HeldBySome(setup, workers[w := wk], c)
            <==> HeldBy(setup, wk, c) || exists v :: v in workers && v != w && HeldBy(setup, workers[v], c)
  {
    var after := workers[w := wk];
    if HeldBy(setup, wk, c) {
      assert w in after && HeldBy(setup, after[w], c);
    }
    if v :| v in workers && v != w && HeldBy(setup, workers[v], c) {
      assert v in after && HeldBy(setup, after[v], c);
    }
  }

  /** Another worker's claims bear another batch number. */
  lemma OthersBatches(setup: Setup, workers: map<WorkerId, Worker>, batches: nat, w: WorkerId, c: Claim)
    requires WorkersOk(workers, batches) && w in workers && workers[w].Busy? && c.batch == workers[w].batch
    ensures !exists v :: v in workers && v != w && HeldBy(setup, workers[v], c)
  {
  }

  lemma HeldWhenSent(setup: Setup, wk: Worker, now: Time, c: Claim)
    requires wk.Busy? && wk.i < |wk.events| && Distinct(wk.events) && wk.sentAt.None?
    ensures var mine := Held(setup, wk, wk.i);
            HeldBy(setup, wk.(sentAt := Some(now)), c)
            <==> c == mine.(sent := true) || (c != mine && HeldBy(setup, wk, c))
  {
    var mine := Held(setup, wk, wk.i);
    var sent := wk.(sentAt := Some(now));
    assert Holds(wk, wk.i) && Held(setup, sent, wk.i) == mine.(sent := true) && Holds(sent, wk.i);
    forall j | Holds(wk, j) && j != wk.i
      ensures Holds(sent, j) && Held(setup, sent, j) == Held(setup, wk, j) != mine
    {
    }
    if HeldBy(setup, sent, c) {
      var j :| Holds(sent, j) && Held(setup, sent, j) == c;
      assert Holds(wk, j);
    }
  }

  lemma HeldWhenAdvanced(setup: Setup, wk: Worker, c: Claim)
    requires wk.Busy? && wk.i < |wk.events| && Distinct(wk.events)
    ensures HeldBy(setup, Advanced(wk), c) <==> c != Held(setup, wk, wk.i) && HeldBy(setup, wk, c)
  {
    var next := Advanced(wk);
    forall j | Holds(wk, j) && j != wk.i
      ensures Holds(next, j) && Held(setup, next, j) == Held(setup, wk, j) != Held(setup, wk, wk.i)
    {
    }
    if HeldBy(setup, next, c) {
      var j :| Holds(next, j) && Held(setup, next, j) == c;
      assert Holds(wk, j);
    }
  }

  lemma HeldWhenClaimed(setup: Setup, sys: Sys, s: State, events: seq<Claimed>, c: Claim)
    requires s.rows == sys.rows && s.now == sys.now && s.batches == sys.batches
    requires IsBatch(sys.rows, sys.now, setup.batchSize, events) && Ids(events) <= s.rows.Keys
    ensures HeldBy(setup, Busy(events, 0, None, sys.batches, sys.now), c)
            <==> c in NewClaims(setup.protocol, s, Ids(events))
  {
    var wk := Busy(events, 0, None, sys.batches, sys.now);
    forall j | 0 <= j < |events|
      ensures Holds(wk, j) && events[j].id in Ids(events)
      ensures Held(setup, wk, j) == Claim(s.batches, events[j].id, s.rows[events[j].id].attempts,
                                          s.now + setup.protocol.lease, false)
    {
      assert FromTable(sys.rows, events[j]);
    }
    if c in NewClaims(setup.protocol, s, Ids(events)) {
      var e :| e in events && e.id == c.id;
      var j :| 0 <= j < |events| && events[j] == e;
      assert Held(setup, wk, j) == c;
    }
  }

  /** The worker's current claim, in the protocol, is in the protocol's set. */
  lemma CurrentIsClaimed(setup: Setup, sys: Sys, s: State, w: WorkerId)
    requires Same(setup, sys, s) && IsBusy(sys, w)
    ensures sys.workers[w].i < |sys.workers[w].events| && Distinct(sys.workers[w].events)
    ensures Held(setup, sys.workers[w], sys.workers[w].i) in s.claims
  {
    var wk := sys.workers[w];
    assert WorkerOk(wk, sys.batches);
    assert Holds(wk, wk.i) && HeldBy(setup, wk, Held(setup, wk, wk.i));
  }

  /** Replacing the current claim of one worker. */
  lemma ClaimsAfterSend(setup: Setup, sys: Sys, s: State, w: WorkerId)
    requires Same(setup, sys, s) && Can(setup, sys, SendNext(w))
    ensures var c := Held(setup, sys.workers[w], sys.workers[w].i);
            SameClaims(setup, SendEffect(sys, w).workers, s.claims - {c} + {c.(sent := true)})
  {
    var wk := sys.workers[w];
    var mine := Held(setup, wk, wk.i);
    var after := SendEffect(sys, w).workers;
    CurrentIsClaimed(setup, sys, s, w);
    forall c
      ensures c in s.claims - {mine} + {mine.(sent := true)} <==> HeldBySome(setup, after, c)
    {
      HeldAfterChange(setup, sys.workers, w, wk, c);
      assert sys.workers[w := wk] == sys.workers;
      HeldAfterChange(setup, sys.workers, w, wk.(sentAt := Some(sys.now)), c);
      HeldWhenSent(setup, wk, sys.now, c);
      if c.batch == wk.batch {
        OthersBatches(setup, sys.workers, sys.batches, w, c);
      }
    }
  }

  lemma ClaimsAfterMark(setup: Setup, sys: Sys, s: State, w: WorkerId)
    requires Same(setup, sys, s) && IsBusy(sys, w) && sys.workers[w].i < |sys.workers[w].events|
    ensures SameClaims(setup, sys.workers[w := Advanced(sys.workers[w])],
                       s.claims - {Held(setup, sys.workers[w], sys.workers[w].i)})
  {
    var wk := sys.workers[w];
    var mine := Held(setup, wk, wk.i);
    CurrentIsClaimed(setup, sys, s, w);
    forall c
      ensures c in s.claims - {mine} <==> HeldBySome(setup, sys.workers[w := Advanced(wk)], c)
    {
      HeldAfterChange(setup, sys.workers, w, wk, c);
      assert sys.workers[w := wk] == sys.workers;
      HeldAfterChange(setup, sys.workers, w, Advanced(wk), c);
      HeldWhenAdvanced(setup, wk, c);
      if c.batch == wk.batch {
        OthersBatches(setup, sys.workers, sys.batches, w, c);
      }
    }
  }

  lemma ClaimsAfterClaim(setup: Setup, sys: Sys, s: State, w: WorkerId, events: seq<Claimed>)
    requires Same(setup, sys, s) && Can(setup, sys, ClaimBatch(w, events)) && Ids(events) <= s.rows.Keys
    ensures SameClaims(setup, ClaimEffect(setup, sys, w, events).workers,
                       s.claims + NewClaims(setup.protocol, s, Ids(events)))
  {
    var wk := if events == [] then Idle else Busy(events, 0, None, sys.batches, sys.now);
    forall c
      ensures c in s.claims + NewClaims(setup.protocol, s, Ids(events))
              <==> HeldBySome(setup, ClaimEffect(setup, sys, w, events).workers, c)
    {
      HeldAfterChange(setup, sys.workers, w, Idle, c);
      assert sys.workers[w := Idle] == sys.workers;
      HeldAfterChange(setup, sys.workers, w, wk, c);
      HeldWhenClaimed(setup, sys, s, events, c);
    }
  }

  // ----- every act is a step -----

  /** The act is a step of the protocol from the same table to the same table. */
  ghost predicate Simulated(setup: Setup, sys: Sys, act: Act, s: State)
    requires Can(setup, sys, act)
  {
    && Possible(s, StepOf(setup, sys, act))
    && Same(setup, Do(setup, sys, act), Next(setup.protocol, s, StepOf(setup, sys, act)))
  }

  lemma LeasedAlike(setup: Setup, sys: Sys, s: State, ids: set<EventId>)
    requires s.rows == sys.rows && s.now == sys.now && ids <= s.rows.Keys
    ensures Leased(setup.protocol, s, ids) == LeaseRows(sys.rows, ids, sys.now + setup.protocol.lease)
  {
  }

  lemma ClaimIsAStep(setup: Setup, sys: Sys, s: State, w: WorkerId, events: seq<Claimed>)
    requires Same(setup, sys, s) && Can(setup, sys, ClaimBatch(w, events))
    ensures Simulated(setup, sys, ClaimBatch(w, events), s)
  {
    BatchIsStored(setup, sys, events);
    ClaimEffectAlike(setup, sys, s, w, events);
  }

  lemma ClaimEffectAlike(setup: Setup, sys: Sys, s: State, w: WorkerId, events: seq<Claimed>)
    requires Same(setup, sys, s) && Can(setup, sys, ClaimBatch(w, events)) && Ids(events) <= s.rows.Keys
    ensures Same(setup, ClaimEffect(setup, sys, w, events), ClaimStep(setup.protocol, s, Ids(events)))
  {
    LeasedAlike(setup, sys, s, Ids(events));
    ClaimsAfterClaim(setup, sys, s, w, events);
  }

  lemma BatchIsStored(setup: Setup, sys: Sys, events: seq<Claimed>)
    requires IsBatch(sys.rows, sys.now, setup.batchSize, events)
    ensures Ids(events) <= sys.rows.Keys
  {
  }

  lemma SendIsAStep(setup: Setup, sys: Sys, s: State, w: WorkerId)
    requires Same(setup, sys, s) && Can(setup, sys, SendNext(w))
    ensures Simulated(setup, sys, SendNext(w), s)
  {
    CurrentIsClaimed(setup, sys, s, w);
    ClaimsAfterSend(setup, sys, s, w);
  }

  lemma MarkIsAStep(setup: Setup, sys: Sys, s: State, w: WorkerId, ok: bool)
    requires setup.policy.maxAttempts == setup.protocol.maxAttempts
    requires Same(setup, sys, s) && Can(setup, sys, MarkAnswer(w, ok))
    ensures Simulated(setup, sys, MarkAnswer(w, ok), s)
  {
    CurrentIsClaimed(setup, sys, s, w);
    ClaimsAfterMark(setup, sys, s, w);
  }

  lemma AbandonIsAStep(setup: Setup, sys: Sys, s: State, w: WorkerId)
    requires Same(setup, sys, s) && Can(setup, sys, Abandon(w))
    ensures Simulated(setup, sys, Abandon(w), s)
  {
    CurrentIsClaimed(setup, sys, s, w);
    ClaimsAfterMark(setup, sys, s, w);
  }

  lemma SettledSweptAlike(setup: Setup, sys: Sys, claims: set<Claim>)
    ensures CleanSettledStep(setup.protocol, StateOf(sys, claims)) == StateOf(SettledSwept(setup, sys), claims)
  {
  }

  lemma StuckSweptAlike(setup: Setup, sys: Sys, claims: set<Claim>)
    ensures CleanStuckStep(setup.protocol, StateOf(sys, claims)) == StateOf(StuckSwept(setup, sys), claims)
  {
  }

  lemma WaitOrEmitIsAStep(setup: Setup, sys: Sys, s: State, act: Act)
    requires Same(setup, sys, s) && Can(setup, sys, act) && (act.Wait? || act.Emit?)
    ensures Simulated(setup, sys, act, s)
  {
  }

  lemma SweptIsAStep(setup: Setup, sys: Sys, s: State)
    requires Same(setup, sys, s)
    ensures Simulated(setup, sys, SweepSettled, s) && Simulated(setup, sys, SweepStuck, s)
  {
    SettledSweptAlike(setup, sys, s.claims);
    StuckSweptAlike(setup, sys, s.claims);
  }

  lemma ActIsAStep(setup: Setup, sys: Sys, s: State, act: Act)
    requires setup.policy.maxAttempts == setup.protocol.maxAttempts
    requires Same(setup, sys, s) && Can(setup, sys, act)
    ensures Simulated(setup, sys, act, s)
  {
    match act
    case ClaimBatch(w, events) => ClaimIsAStep(setup, sys, s, w, events);
    case SendNext(w) => SendIsAStep(setup, sys, s, w);
    case MarkAnswer(w, ok) => MarkIsAStep(setup, sys, s, w, ok);
    case Abandon(w) => AbandonIsAStep(setup, sys, s, w);
    case SweepSettled => SweptIsAStep(setup, sys, s);
    case SweepStuck => SweptIsAStep(setup, sys, s);
    case _ => WaitOrEmitIsAStep(setup, sys, s, act);
  }

  /** Every run of the system is a run of the protocol, lease by lease. */
  lemma {:induction false} SystemIsAProtocolRun(setup: Setup, sys: Sys, s: State, acts: seq<Act>)
    requires setup.policy.maxAttempts == setup.protocol.maxAttempts
    requires Same(setup, sys, s) && CanAll(setup, sys, acts)
    ensures PossibleRun(setup.protocol, s, StepsOf(setup, sys, acts))
    ensures Same(setup, DoAll(setup, sys, acts), Run(setup.protocol, s, StepsOf(setup, sys, acts)))
    decreases |acts|
  {
    if acts != [] {
      ActIsAStep(setup, sys, s, acts[0]);
      var s1 := Next(setup.protocol, s, StepOf(setup, sys, acts[0]));
      var rest := StepsOf(setup, Do(setup, sys, acts[0]), acts[1..]);
      SystemIsAProtocolRun(setup, Do(setup, sys, acts[0]), s1, acts[1..]);
      assert ([StepOf(setup, sys, acts[0])] + rest)[1..] == rest;
    }
  }

  /** No worker ever waits for another: a busy one can send or mark, or give the event
      up, and an idle one can claim any batch there is. */
  lemma WorkersDoNotWait(setup: Setup, sys: Sys, s: State, w: WorkerId, ok: bool, events: seq<Claimed>)
    requires Same(setup, sys, s) && w in sys.workers
    ensures sys.workers[w].Busy? ==>
              Can(setup, sys, if sys.workers[w].sentAt.None? then SendNext(w) else MarkAnswer(w, ok))
              && Can(setup, sys, Abandon(w))
    ensures sys.workers[w].Idle? && IsBatch(sys.rows, sys.now, setup.batchSize, events) ==>
              Can(setup, sys, ClaimBatch(w, events))
  {
    if sys.workers[w].Busy? {
      CurrentIsClaimed(setup, sys, s, w);
    }
  }

  // ----- the lease discipline -----

  /** No worker with an unfinished batch is past its lease. */
  ghost predicate WithinLeases(setup: Setup, sys: Sys) {
    forall w :: IsBusy(sys, w) ==> sys.now < sys.workers[w].claimedAt + setup.protocol.lease
  }

  /** Every batch is answered within its own lease, and none is abandoned. */
  ghost predicate AnsweredInTime(setup: Setup, sys: Sys, acts: seq<Act>)
    requires CanAll(setup, sys, acts)
    decreases |acts|
  {
    acts == [] || (!acts[0].Abandon? && WithinLeases(setup, Do(setup, sys, acts[0]))
                   && AnsweredInTime(setup, Do(setup, sys, acts[0]), acts[1..]))
  }

  lemma LeasesAreClaims(setup: Setup, sys: Sys, s: State, t: Time)
    requires Same(setup, sys, s)
    ensures (forall c :: c in s.claims ==> t < c.deadline)
            <==> forall w :: IsBusy(sys, w) ==> t < sys.workers[w].claimedAt + setup.protocol.lease
  {
    if forall c :: c in s.claims ==> t < c.deadline {
      forall w | IsBusy(sys, w)
        ensures t < sys.workers[w].claimedAt + setup.protocol.lease
      {
        CurrentIsClaimed(setup, sys, s, w);
        assert t < Held(setup, sys.workers[w], sys.workers[w].i).deadline;
      }
    }
    if forall w :: IsBusy(sys, w) ==> t < sys.workers[w].claimedAt + setup.protocol.lease {
      forall c | c in s.claims
        ensures t < c.deadline
      {
        var w :| w in sys.workers && HeldBy(setup, sys.workers[w], c);
        assert IsBusy(sys, w);
      }
    }
  }

  lemma ActIsDisciplinedIff(setup: Setup, sys: Sys, s: State, act: Act)
    requires Same(setup, sys, s) && Can(setup, sys, act) && Possible(s, StepOf(setup, sys, act))
    requires setup.protocol.lease > 0 && WithinLeases(setup, sys)
    ensures Enabled(s, StepOf(setup, sys, act)) <==> !act.Abandon? && WithinLeases(setup, Do(setup, sys, act))
  {
    if act.Wait? {
      LeasesAreClaims(setup, sys, s, sys.now + act.d);
      var sys' := Do(setup, sys, act);
      assert forall w :: IsBusy(sys', w) <==> IsBusy(sys, w);
    }
  }

  /** A run of the system keeps the lease discipline exactly when each batch is
      answered within its own lease. */
  lemma {:induction false} DisciplinedIff(setup: Setup, sys: Sys, s: State, acts: seq<Act>)
    requires setup.policy.maxAttempts == setup.protocol.maxAttempts && setup.protocol.lease > 0
    requires Same(setup, sys, s) && CanAll(setup, sys, acts) && WithinLeases(setup, sys)
    ensures ValidRun(setup.protocol, s, StepsOf(setup, sys, acts)) <==> AnsweredInTime(setup, sys, acts)
    decreases |acts|
  {
    if acts != [] {
      ActIsAStep(setup, sys, s, acts[0]);
      ActIsDisciplinedIff(setup, sys, s, acts[0]);
      var sys1, st := Do(setup, sys, acts[0]), StepOf(setup, sys, acts[0]);
      var rest := StepsOf(setup, sys1, acts[1..]);
      assert ([st] + rest)[1..] == rest;
      if WithinLeases(setup, sys1) {
        DisciplinedIff(setup, sys1, Next(setup.protocol, s, st), acts[1..]);
      }
    }
  }

  // ----- when the settings alone guarantee it -----

  /** Each send is answered within the timeout, and a worker that is not waiting for an
      answer goes on at once. */
  ghost predicate Prompt(setup: Setup, sys: Sys, act: Act) {
    match act
    case Wait(d) =>
      forall w :: IsBusy(sys, w) ==>
        if sys.workers[w].sentAt.Some? then sys.now + d <= sys.workers[w].sentAt.value + setup.timeout else d == 0
    case Abandon(_) => false
    case _ => true
  }

  ghost predicate AllPrompt(setup: Setup, sys: Sys, acts: seq<Act>)
    requires CanAll(setup, sys, acts)
    decreases |acts|
  {
    acts == [] || (Prompt(setup, sys, acts[0]) && AllPrompt(setup, Do(setup, sys, acts[0]), acts[1..]))
  }

  /** A worker is at most i timeouts past its claim when it comes to event i. */
  ghost predicate OnSchedule(setup: Setup, now: Time, wk: Worker) {
    wk.Busy? ==>
      && wk.i < |wk.events| <= setup.batchSize
      && match wk.sentAt
         case None => now <= wk.claimedAt + wk.i * setup.timeout
         case Some(t) => t <= wk.claimedAt + wk.i * setup.timeout && now <= t + setup.timeout
  }

  ghost predicate AllOnSchedule(setup: Setup, sys: Sys) {
    forall w :: w in sys.workers ==> OnSchedule(setup, sys.now, sys.workers[w])
  }

  lemma AnswerKeepsSchedule(setup: Setup, now: Time, wk: Worker)
    requires OnSchedule(setup, now, wk) && wk.Busy? && wk.sentAt.Some?
    ensures OnSchedule(setup, now, Advanced(wk))
  {
    assert (wk.i + 1) * setup.timeout == wk.i * setup.timeout + setup.timeout;
  }

  lemma BatchIsSmall(setup: Setup, sys: Sys, events: seq<Claimed>)
    requires IsBatch(sys.rows, sys.now, setup.batchSize, events)
    ensures |events| <= setup.batchSize
  {
    DistinctIdsAreMany(events);
  }

  lemma {:induction false} DistinctIdsAreMany(events: seq<Claimed>)
    requires Distinct(events)
    ensures |Ids(events)| == |events|
  {
    if events != [] {
      var rest := events[..|events| - 1];
      var last := events[|events| - 1];
      DistinctIdsAreMany(rest);
      assert events == rest + [last];
      assert Ids(events) == Ids(rest) + {last.id};
      assert last.id !in Ids(rest);
    }
  }

  lemma PromptKeepsSchedule(setup: Setup, sys: Sys, act: Act)
    requires Can(setup, sys, act) && Prompt(setup, sys, act) && AllOnSchedule(setup, sys)
    ensures AllOnSchedule(setup, Do(setup, sys, act))
  {
    match act
    case ClaimBatch(w, events) => BatchIsSmall(setup, sys, events);
    case MarkAnswer(w, _) => AnswerKeepsSchedule(setup, sys.now, sys.workers[w]);
    case Wait(d) =>
      forall w | w in sys.workers
        ensures OnSchedule(setup, sys.now + d, sys.workers[w])
      {
        assert sys.workers[w].Busy? ==> IsBusy(sys, w);
      }
    case _ =>
  }

  /** On schedule, and with a lease longer than the batch size times the timeout, nobody
      is past a lease. */
  lemma ScheduleIsWithinLeases(setup: Setup, sys: Sys)
    requires AllOnSchedule(setup, sys) && setup.batchSize * setup.timeout < setup.protocol.lease
    ensures WithinLeases(setup, sys)
  {
    forall w | IsBusy(sys, w)
      ensures sys.now < sys.workers[w].claimedAt + setup.protocol.lease
    {
      var wk := sys.workers[w];
      MulGrows(wk.i + 1, setup.batchSize, setup.timeout);
      assert (wk.i + 1) * setup.timeout == wk.i * setup.timeout + setup.timeout;
    }
  }

  lemma MulGrows(a: nat, b: nat, c: nat)
    requires a <= b
    ensures a * c <= b * c
  {
  }

  /** With prompt workers that is enough for every interleaving. */
  lemma {:induction false} PromptIsInTime(setup: Setup, sys: Sys, acts: seq<Act>)
    requires CanAll(setup, sys, acts) && AllPrompt(setup, sys, acts) && AllOnSchedule(setup, sys)
    requires setup.batchSize * setup.timeout < setup.protocol.lease
    ensures AnsweredInTime(setup, sys, acts)
    decreases |acts|
  {
    if acts != [] {
      PromptKeepsSchedule(setup, sys, acts[0]);
      ScheduleIsWithinLeases(setup, Do(setup, sys, acts[0]));
      PromptIsInTime(setup, Do(setup, sys, acts[0]), acts[1..]);
    }
  }

  // ----- what holds of the system -----

  /** Two workers at work on one event are one worker at one place. */
  ghost predicate NobodyShares(sys: Sys) {
    forall v, j: nat, w, k: nat ::
      (v in sys.workers && Holds(sys.workers[v], j) && w in sys.workers && Holds(sys.workers[w], k)
       && sys.workers[v].events[j].id == sys.workers[w].events[k].id) ==> v == w && j == k
  }

  lemma OneClaimIsOneWorker(setup: Setup, sys: Sys, s: State)
    requires Same(setup, sys, s)
    requires forall c, d :: c in s.claims && d in s.claims && c.id == d.id ==> c == d
    ensures NobodyShares(sys)
  {
    forall v, j: nat, w, k: nat | v in sys.workers && Holds(sys.workers[v], j) && w in sys.workers && Holds(sys.workers[w], k)
                                  && sys.workers[v].events[j].id == sys.workers[w].events[k].id
      ensures v == w && j == k
    {
      var c, d := Held(setup, sys.workers[v], j), Held(setup, sys.workers[w], k);
      assert HeldBy(setup, sys.workers[v], c) && HeldBy(setup, sys.workers[w], d);
      assert c in s.claims && d in s.claims;
      assert WorkerOk(sys.workers[v], sys.batches);
    }
  }

  /** For any number of dispatchers, in any interleaving in which each batch is answered
      within its own lease: no event is at two workers, the attempts sent for an event
      are 1, 2, 3, … up to the maximum, and every event ever written has exactly one
      fate. */
  lemma SystemIsOrderly(setup: Setup, ws: set<WorkerId>, acts: seq<Act>)
    requires setup.policy.maxAttempts == setup.protocol.maxAttempts && setup.protocol.lease > 0
    requires CanAll(setup, Start(ws), acts) && AnsweredInTime(setup, Start(ws), acts)
    ensures NobodyShares(DoAll(setup, Start(ws), acts))
    ensures forall id :: SentInOrder(setup, DoAll(setup, Start(ws), acts), id)
  {
    var steps := StepsOf(setup, Start(ws), acts);
    StartIsInitial(setup, ws);
    SystemIsAProtocolRun(setup, Start(ws), INITIAL, acts);
    DisciplinedIff(setup, Start(ws), INITIAL, acts);
    OutboxTheorems.DeliveryIsOrderly(setup.protocol, steps);
    OneClaimIsOneWorker(setup, DoAll(setup, Start(ws), acts), Run(setup.protocol, INITIAL, steps));
    forall id
      ensures SentInOrder(setup, DoAll(setup, Start(ws), acts), id)
    {
      assert SendsOf(Run(setup.protocol, INITIAL, steps), id) == SentSoFar(DoAll(setup, Start(ws), acts), id);
    }
  }

  ghost predicate SentInOrder(setup: Setup, sys: Sys, id: EventId) {
    Consecutive(SentSoFar(sys, id)) && |SentSoFar(sys, id)| <= Cap(setup.protocol)
  }

  lemma SystemLosesNothing(setup: Setup, ws: set<WorkerId>, acts: seq<Act>, id: EventId)
    requires setup.policy.maxAttempts == setup.protocol.maxAttempts && setup.protocol.lease > 0
    requires CanAll(setup, Start(ws), acts) && AnsweredInTime(setup, Start(ws), acts)
    ensures var sys := DoAll(setup, Start(ws), acts);
            && (id in sys.inserted <==> exists fate :: FateIs(setup, sys, id, fate))
            && forall f, g :: FateIs(setup, sys, id, f) && FateIs(setup, sys, id, g) ==> f == g
  {
    var steps := StepsOf(setup, Start(ws), acts);
    StartIsInitial(setup, ws);
    SystemIsAProtocolRun(setup, Start(ws), INITIAL, acts);
    DisciplinedIff(setup, Start(ws), INITIAL, acts);
    OutboxTheorems.EveryEventHasOneFate(setup.protocol, steps, id);
    var sys, s := DoAll(setup, Start(ws), acts), Run(setup.protocol, INITIAL, steps);
    forall fate
      ensures FateIs(setup, sys, id, fate) <==> OutboxTheorems.HasFate(setup.protocol, s, id, fate)
    {
    }
  }

  /** The fate of an event shows in the table and the record of what was removed,
      whoever is at work on it. */
  ghost predicate FateIs(setup: Setup, sys: Sys, id: EventId, fate: OutboxTheorems.Fate) {
    OutboxTheorems.HasFate(setup.protocol, StateOf(sys, {}), id, fate)
  }

  /** The same from the settings alone: prompt dispatchers whose batches fit into the
      lease, however many there are and however they interleave. */
  lemma PromptSystemIsOrderly(setup: Setup, ws: set<WorkerId>, acts: seq<Act>)
    requires setup.policy.maxAttempts == setup.protocol.maxAttempts
    requires setup.batchSize * setup.timeout < setup.protocol.lease
    requires CanAll(setup, Start(ws), acts) && AllPrompt(setup, Start(ws), acts)
    ensures AnsweredInTime(setup, Start(ws), acts)
    ensures NobodyShares(DoAll(setup, Start(ws), acts))
    ensures forall id :: SentInOrder(setup, DoAll(setup, Start(ws), acts), id)
  {
    PromptIsInTime(setup, Start(ws), acts);
    MulGrows(0, setup.batchSize, setup.timeout);
    SystemIsOrderly(setup, ws, acts);
  }
}
