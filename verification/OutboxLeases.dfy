/** Delivery by lease: any number of workers claim due rows by pushing
    next_attempt_at forward, send, and mark, while two cleaners remove old rows. */
module OutboxLeases {
  import opened Common

  type EventId = nat
  type Time = int

  datatype Config = Config(lease: int, maxAttempts: int, retention: int, maxAge: int)

  /** How often an event can be tried at most. */
  function Cap(cfg: Config): nat {
    Max(1, cfg.maxAttempts)
  }

  datatype Row = Row(seqno: nat, attempts: nat, nextAttempt: Time, delivered: bool, failed: bool, createdAt: Time)
  {
    predicate Pending() {
      !delivered && !failed
    }
  }

  type Rows = map<EventId, Row>

  /** A worker's unfinished business with a row, as it was when claimed. */
  datatype Claim = Claim(batch: nat, id: EventId, attempts: nat, deadline: Time, sent: bool)

  datatype State = State(
    now: Time,
    rows: Rows,
    claims: set<Claim>,
    batches: nat,                        // claim statements run so far
    // history
    inserted: set<EventId>,
    removed: map<EventId, (Row, Time)>,  // the row as it was removed, and when
    sends: map<EventId, seq<nat>>)       // attempt numbers handed to the sender

  datatype Step =
    | Tick(d: nat)
    | Insert(id: EventId, seqno: nat)
    | ClaimDue(limit: nat, batch: set<EventId>)
    | Send(c: Claim)
    | MarkDelivered(c: Claim)
    | MarkFailed(c: Claim, next: Time)
    | Crash(c: Claim)
    | CleanSettled
    | CleanStuck

  const INITIAL := State(0, map[], {}, 0, {}, map[], map[])

  predicate Due(rows: Rows, now: Time, id: EventId) {
    id in rows && rows[id].Pending() && rows[id].nextAttempt <= now
  }

  /** What ORDER BY seq LIMIT selects among the due rows. */
  predicate LeastDue(rows: Rows, now: Time, limit: nat, batch: set<EventId>) {
    && |batch| <= limit
    && (forall id :: id in batch ==> Due(rows, now, id))
    && (forall a, b :: a in batch && b in rows && b !in batch && Due(rows, now, b) ==> rows[a].seqno <= rows[b].seqno)
    && (|batch| < limit ==> forall b :: b in rows && Due(rows, now, b) ==> b in batch)
  }

  function SendsOf(s: State, id: EventId): seq<nat> {
    if id in s.sends then s.sends[id] else []
  }

  /** Without any discipline: workers may die, and may mark long after their
      lease has run out. */
  predicate Possible(s: State, st: Step) {
    match st
    case Tick(_) => true
    case Insert(id, _) => id !in s.inserted
    case ClaimDue(limit, batch) => LeastDue(s.rows, s.now, limit, batch)
    case Send(c) => c in s.claims && !c.sent
    case MarkDelivered(c) => c in s.claims && c.sent
    case MarkFailed(c, _) => c in s.claims && c.sent
    case Crash(c) => c in s.claims
    case CleanSettled => true
    case CleanStuck => true
  }

  /** Every claim is marked before its lease ends. */
  predicate Enabled(s: State, st: Step) {
    && Possible(s, st)
    && (st.Tick? ==> forall c :: c in s.claims ==> s.now + st.d < c.deadline)
    && !st.Crash?
  }

  predicate GivesUp(cfg: Config, c: Claim) {
    c.attempts + 1 >= cfg.maxAttempts
  }

  function Leased(cfg: Config, s: State, batch: set<EventId>): (r: Rows)
    requires batch <= s.rows.Keys
    ensures r.Keys == s.rows.Keys
    ensures forall id :: id in r ==>
              r[id].(nextAttempt := 0) == s.rows[id].(nextAttempt := 0)
              && (r[id].nextAttempt == if id in batch then s.now + cfg.lease else s.rows[id].nextAttempt)
  {
    s.rows + map id | id in batch :: s.rows[id].(nextAttempt := s.now + cfg.lease)
  }

  function NewClaims(cfg: Config, s: State, batch: set<EventId>): set<Claim>
    requires batch <= s.rows.Keys
  {
    set id | id in batch :: Claim(s.batches, id, s.rows[id].attempts, s.now + cfg.lease, false)
  }

  /** What the two cleaning deletes match. */
  function SettledBefore(rows: Rows, cutoff: Time): set<EventId> {
    set id | id in rows && !rows[id].Pending() && rows[id].createdAt < cutoff
  }

  function StuckBefore(rows: Rows, cutoff: Time): set<EventId> {
    set id | id in rows && rows[id].Pending() && rows[id].createdAt < cutoff
  }

  /** The rows that go, as they were, and when. */
  function Obituary(rows: Rows, gone: set<EventId>, at: Time): map<EventId, (Row, Time)>
    requires gone <= rows.Keys
  {
    map id | id in gone :: (rows[id], at)
  }

  function Remove(s: State, gone: set<EventId>): State
    requires gone <= s.rows.Keys
  {
    s.(rows := s.rows - gone, removed := s.removed + Obituary(s.rows, gone, s.now))
  }

  /** MarkOutboxFailed: failed_at is overwritten either way. */
  function FailRow(cfg: Config, r: Row, c: Claim, next: Time): Row {
    r.(attempts := r.attempts + 1, nextAttempt := next, failed := GivesUp(cfg, c))
  }

  function InsertStep(s: State, id: EventId, seqno: nat): State {
    s.(rows := s.rows[id := Row(seqno, 0, s.now, false, false, s.now)], inserted := s.inserted + {id})
  }

  function ClaimStep(cfg: Config, s: State, batch: set<EventId>): State
    requires batch <= s.rows.Keys
  {
    s.(rows := Leased(cfg, s, batch), claims := s.claims + NewClaims(cfg, s, batch), batches := s.batches + 1)
  }

  function SendStep(s: State, c: Claim): State {
    s.(claims := s.claims - {c} + {c.(sent := true)}, sends := s.sends[c.id := SendsOf(s, c.id) + [c.attempts + 1]])
  }

  function DeliveredStep(s: State, c: Claim): State {
    var rows := if c.id in s.rows then
                  s.rows[c.id := s.rows[c.id].(delivered := true, attempts := s.rows[c.id].attempts + 1)]
                else s.rows;
    s.(claims := s.claims - {c}, rows := rows)
  }

  function FailedStep(cfg: Config, s: State, c: Claim, next: Time): State {
    var rows := if c.id in s.rows then s.rows[c.id := FailRow(cfg, s.rows[c.id], c, next)] else s.rows;
    s.(claims := s.claims - {c}, rows := rows)
  }

  function CleanSettledStep(cfg: Config, s: State): State {
    if cfg.retention > 0 then Remove(s, SettledBefore(s.rows, s.now - cfg.retention)) else s
  }

  function CleanStuckStep(cfg: Config, s: State): State {
    if cfg.maxAge > 0 then Remove(s, StuckBefore(s.rows, s.now - cfg.maxAge)) else s
  }

  function Next(cfg: Config, s: State, st: Step): State
    requires Possible(s, st)
  {
    match st
    case Tick(d) => s.(now := s.now + d)
    case Insert(id, seqno) => InsertStep(s, id, seqno)
    case ClaimDue(_, batch) => ClaimStep(cfg, s, batch)
    case Send(c) => SendStep(s, c)
    case MarkDelivered(c) => DeliveredStep(s, c)
    case MarkFailed(c, next) => FailedStep(cfg, s, c, next)
    case Crash(c) => s.(claims := s.claims - {c})
    case CleanSettled => CleanSettledStep(cfg, s)
    case CleanStuck => CleanStuckStep(cfg, s)
  }

  predicate PossibleRun(cfg: Config, s: State, steps: seq<Step>)
    decreases |steps|
  {
    steps == [] || (Possible(s, steps[0]) && PossibleRun(cfg, Next(cfg, s, steps[0]), steps[1..]))
  }

  predicate ValidRun(cfg: Config, s: State, steps: seq<Step>)
    decreases |steps|
  {
    steps == [] || (Enabled(s, steps[0]) && ValidRun(cfg, Next(cfg, s, steps[0]), steps[1..]))
  }

  function Run(cfg: Config, s: State, steps: seq<Step>): State
    requires PossibleRun(cfg, s, steps)
    decreases |steps|
  {
    if steps == [] then s else Run(cfg, Next(cfg, s, steps[0]), steps[1..])
  }

  lemma {:induction false} ValidIsPossible(cfg: Config, s: State, steps: seq<Step>)
    requires ValidRun(cfg, s, steps)
    ensures PossibleRun(cfg, s, steps)
    decreases |steps|
  {
    if steps != [] {
      ValidIsPossible(cfg, Next(cfg, s, steps[0]), steps[1..]);
    }
  }

  // ----- the invariant of the disciplined runs -----

  ghost predicate Claimed(s: State, id: EventId) {
    exists c :: c in s.claims && c.id == id
  }

  ghost predicate RowOk(cfg: Config, s: State, id: EventId)
    requires id in s.rows
  {
    var r := s.rows[id];
    && r.attempts <= Cap(cfg)
    && (r.Pending() ==> r.attempts < Cap(cfg))
    && !(r.delivered && r.failed)
    && (!Claimed(s, id) ==> |SendsOf(s, id)| == r.attempts)
  }

  ghost predicate ClaimOk(cfg: Config, s: State, c: Claim) {
    && s.now < c.deadline && c.batch < s.batches
    && c.id in s.inserted
    && c.attempts < Cap(cfg)
    && |SendsOf(s, c.id)| == c.attempts + (if c.sent then 1 else 0)
    && (c.id in s.rows ==> s.rows[c.id].Pending() && s.rows[c.id].attempts == c.attempts
                           && s.rows[c.id].nextAttempt == c.deadline)
    && forall d :: d in s.claims && d.id == c.id ==> d == c
  }

  /** The attempt numbers sent for an event are 1, 2, 3 and so on. */
  ghost predicate Consecutive(sent: seq<nat>) {
    forall i :: 0 <= i < |sent| ==> sent[i] == i + 1
  }

  /** A removed row was settled past its retention, or pending past the ceiling. */
  predicate RemovalOk(cfg: Config, r: Row, at: Time) {
    if r.Pending() then cfg.maxAge > 0 && r.createdAt < at - cfg.maxAge
    else cfg.retention > 0 && r.createdAt < at - cfg.retention
  }

  ghost predicate Accounted(cfg: Config, s: State) {
    && s.rows.Keys + s.removed.Keys == s.inserted
    && s.rows.Keys !! s.removed.Keys
    && forall id :: id in s.removed ==> RemovalOk(cfg, s.removed[id].0, s.removed[id].1)
  }

  ghost predicate Inv(cfg: Config, s: State) {
    && Accounted(cfg, s)
    && s.sends.Keys <= s.inserted
    && (forall id :: id in s.rows ==> RowOk(cfg, s, id))
    && (forall c :: c in s.claims ==> ClaimOk(cfg, s, c))
    && (forall id :: id in s.sends ==> Consecutive(s.sends[id]) && |s.sends[id]| <= Cap(cfg))
  }
}
