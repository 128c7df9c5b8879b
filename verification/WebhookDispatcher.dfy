/** The dispatch loop: claim a batch, send each event in turn, mark it. Times are
    nanoseconds, as in the source. */
module WebhookDispatcher {
  import opened OutboxLeases
  import Backoff

  const SECOND: int := Backoff.SECOND

  datatype DispatchConfig = DispatchConfig(
    batchSize: nat, maxAttempts: int, backoffBase: int, backoffMax: int, timeout: nat)

  const DEFAULTS := DispatchConfig(50, 10, 10 * SECOND, 3600 * SECOND, 10 * SECOND)

  /** The lease as the claim statement receives it: whole seconds. */
  function LeaseFor(cfg: DispatchConfig): nat {
    (cfg.timeout * 2 + 30 * SECOND) / SECOND * SECOND
  }

  function BackoffFor(cfg: DispatchConfig, attempt: nat, saturates: bool): int
    requires attempt >= 1
  {
    Backoff.Delay(cfg.backoffBase, cfg.backoffMax, attempt - 1, saturates)
  }

  /** How failures are handled: the limit, and the delay after each attempt. */
  datatype Policy = Policy(maxAttempts: int, delay: nat -> int)

  function PolicyOf(cfg: DispatchConfig, saturates: bool): Policy {
    Policy(cfg.maxAttempts, attempt => if attempt >= 1 then BackoffFor(cfg, attempt, saturates) else 0)
  }

  /** What the receiver does with the i-th event of a batch. */
  datatype Response = Response(ok: bool, took: nat)

  /** The first n marks succeed; the next, if there is one, is refused by the database,
      and there the loop ends with an error. That event has been sent all the same. */
  predicate StopsAt(marks: nat -> bool, n: nat, sent: nat, size: nat) {
    n <= size && AllSucceed(marks, n) && (n < size ==> !marks(n)) && sent == if n < size then n + 1 else n
  }

  predicate AllSucceed(marks: nat -> bool, n: nat) {
    n == 0 || (marks(n - 1) && AllSucceed(marks, n - 1))
  }

  datatype Claimed = Claimed(id: EventId, attempts: nat)

  datatype Output = Output(delivered: nat, failed: nat, gaveUp: nat)

  function Ids(events: seq<Claimed>): set<EventId> {
    set e | e in events :: e.id
  }

  ghost predicate Distinct(events: seq<Claimed>) {
    forall i, j :: 0 <= i < j < |events| ==> events[i].id != events[j].id
  }

  /** The row an event was read from. */
  predicate FromTable(rows: Rows, e: Claimed) {
    e.id in rows && e.attempts == rows[e.id].attempts
  }

  /** A batch in the making: the least-numbered of the due rows. */
  ghost predicate Leading(rows: Rows, due: set<EventId>, events: seq<Claimed>) {
    && Ids(events) <= due <= rows.Keys && |Ids(events)| == |events|
    && Distinct(events)
    && (forall i :: 0 <= i < |events| ==> FromTable(rows, events[i]))
    && (forall a, b :: a in Ids(events) && b in due && b !in Ids(events) ==> rows[a].seqno <= rows[b].seqno)
  }

  /** What a claim statement may return. */
  ghost predicate IsBatch(rows: Rows, now: Time, limit: nat, events: seq<Claimed>) {
    && Distinct(events) && LeastDue(rows, now, limit, Ids(events))
    && forall i :: 0 <= i < |events| ==> FromTable(rows, events[i])
  }

  lemma LeadingGrows(rows: Rows, due: set<EventId>, events: seq<Claimed>, e: Claimed)
    requires Leading(rows, due, events) && e.id in due && e.id !in Ids(events) && FromTable(rows, e)
    requires forall b :: b in due && b !in Ids(events) ==> rows[e.id].seqno <= rows[b].seqno
    ensures Leading(rows, due, events + [e]) && Ids(events + [e]) == Ids(events) + {e.id}
  {
    assert forall x :: x in events + [e] <==> x in events || x == e;
    assert Ids(events + [e]) == Ids(events) + {e.id};
    assert forall i :: 0 <= i < |events| ==> events[i].id in Ids(events);
  }

  /** The batch so far, and what is left to pick from. */
  ghost predicate Picking(rows: Rows, due: set<EventId>, left: set<EventId>, events: seq<Claimed>) {
    Leading(rows, due, events) && left == due - Ids(events)
  }

  lemma PickNext(rows: Rows, due: set<EventId>, left: set<EventId>, events: seq<Claimed>, e: Claimed)
    requires Picking(rows, due, left, events) && e.id in left && FromTable(rows, e)
    requires forall b :: b in left ==> rows[e.id].seqno <= rows[b].seqno
    ensures Picking(rows, due, left - {e.id}, events + [e])
  {
    LeadingGrows(rows, due, events, e);
  }

  lemma LeadingIsBatch(rows: Rows, now: Time, limit: nat, due: set<EventId>, events: seq<Claimed>)
    requires Leading(rows, due, events) && |events| <= limit
    requires forall id :: id in due <==> Due(rows, now, id)
    requires |events| == limit || due <= Ids(events)
    ensures IsBatch(rows, now, limit, events)
  {
    var batch := Ids(events);
    assert batch <= due;
    forall id | id in batch
      ensures Due(rows, now, id)
    {
      assert id in due;
    }
    forall a, b | a in batch && b in rows && b !in batch && Due(rows, now, b)
      ensures rows[a].seqno <= rows[b].seqno
    {
      assert b in due;
    }
  }

  /** How long the first n sends take together. */
  function Elapsed(responses: nat -> Response, n: nat): nat {
    if n == 0 then 0 else Elapsed(responses, n - 1) + responses(n - 1).took
  }

  /** When the i-th event is marked, counted from the claim: after its own send. */
  function MarkedAfter(responses: nat -> Response, i: nat): nat {
    Elapsed(responses, i + 1)
  }

  /** One event: delivered, or failed with the next attempt scheduled. */
  function MarkRow(policy: Policy, r: Row, e: Claimed, response: Response, at: Time): Row {
    if response.ok then r.(delivered := true, attempts := r.attempts + 1)
    else r.(attempts := r.attempts + 1, nextAttempt := at + policy.delay(e.attempts + 1),
            failed := e.attempts + 1 >= policy.maxAttempts)
  }

  function LeaseRows(rows: Rows, ids: set<EventId>, until: Time): Rows {
    map id | id in rows :: if id in ids then rows[id].(nextAttempt := until) else rows[id]
  }

  /** The table after the first n events of the batch have been marked. */
  function MarkAll(policy: Policy, rows: Rows, events: seq<Claimed>, responses: nat -> Response, start: Time,
                   n: nat): (r: Rows)
    requires n <= |events|
    ensures r.Keys == rows.Keys
  {
    if n == 0 then rows
    else
      var before := MarkAll(policy, rows, events, responses, start, n - 1);
      var e := events[n - 1];
      if e.id !in before then before
      else before[e.id := MarkRow(policy, before[e.id], e, responses(n - 1), start + MarkedAfter(responses, n - 1))]
  }

  function Counted(policy: Policy, out: Output, e: Claimed, response: Response): Output {
    if response.ok then out.(delivered := out.delivered + 1)
    else if e.attempts + 1 >= policy.maxAttempts then out.(gaveUp := out.gaveUp + 1)
    else out.(failed := out.failed + 1)
  }

  /** Each event is counted once, under exactly one heading. */
  function Tally(policy: Policy, events: seq<Claimed>, responses: nat -> Response, n: nat): (out: Output)
    requires n <= |events|
    ensures out.delivered + out.failed + out.gaveUp == n
  {
    if n == 0 then Output(0, 0, 0)
    else Counted(policy, Tally(policy, events, responses, n - 1), events[n - 1], responses(n - 1))
  }

  /** The events among the first n that end under each heading. */
  ghost function DeliveredOf(responses: nat -> Response, n: nat): set<nat> {
    set i: nat | i < n && responses(i).ok
  }

  ghost function GivenUpOf(policy: Policy, events: seq<Claimed>, responses: nat -> Response, n: nat): set<nat>
    requires n <= |events|
  {
    set i: nat | i < n && !responses(i).ok && events[i].attempts + 1 >= policy.maxAttempts
  }

  lemma OneMoreDelivered(responses: nat -> Response, n: nat)
    requires 0 < n
    ensures |DeliveredOf(responses, n)| == |DeliveredOf(responses, n - 1)| + if responses(n - 1).ok then 1 else 0
  {
    var before := DeliveredOf(responses, n - 1);
    assert DeliveredOf(responses, n) == if responses(n - 1).ok then before + {n - 1} else before;
  }

  lemma OneMoreGivenUp(policy: Policy, events: seq<Claimed>, responses: nat -> Response, n: nat)
    requires 0 < n <= |events|
    ensures |GivenUpOf(policy, events, responses, n)|
            == |GivenUpOf(policy, events, responses, n - 1)|
               + if !responses(n - 1).ok && events[n - 1].attempts + 1 >= policy.maxAttempts then 1 else 0
  {
    var before := GivenUpOf(policy, events, responses, n - 1);
    assert GivenUpOf(policy, events, responses, n)
           == if !responses(n - 1).ok && events[n - 1].attempts + 1 >= policy.maxAttempts then before + {n - 1} else before;
  }

  lemma {:induction false} TallyCounts(policy: Policy, events: seq<Claimed>, responses: nat -> Response, n: nat)
    requires n <= |events|
    ensures var out := Tally(policy, events, responses, n);
            && out.delivered == |DeliveredOf(responses, n)|
            && out.gaveUp == |GivenUpOf(policy, events, responses, n)|
            && out.failed == n - |DeliveredOf(responses, n)| - |GivenUpOf(policy, events, responses, n)|
  {
    if n > 0 {
      TallyCounts(policy, events, responses, n - 1);
      OneMoreDelivered(responses, n);
      OneMoreGivenUp(policy, events, responses, n);
    }
  }

  lemma MarkAllStep(policy: Policy, rows: Rows, events: seq<Claimed>, responses: nat -> Response, start: Time, n: nat)
    requires n < |events| && events[n].id in rows
    requires forall i :: 0 <= i < n ==> events[i].id != events[n].id
    ensures var before := MarkAll(policy, rows, events, responses, start, n);
            && before[events[n].id] == rows[events[n].id]
            && MarkAll(policy, rows, events, responses, start, n + 1)
               == before[events[n].id := MarkRow(policy, before[events[n].id], events[n], responses(n),
                                                 start + Elapsed(responses, n + 1))]
  {
    UnmarkedRow(policy, rows, events, responses, start, n, events[n].id);
  }

  lemma {:induction false} UnmarkedRow(policy: Policy, rows: Rows, events: seq<Claimed>, responses: nat -> Response,
                                       start: Time, n: nat, id: EventId)
    requires n <= |events| && id in rows
    requires forall i :: 0 <= i < n ==> events[i].id != id
    ensures MarkAll(policy, rows, events, responses, start, n)[id] == rows[id]
  {
    if n > 0 {
      UnmarkedRow(policy, rows, events, responses, start, n - 1, id);
    }
  }

  /** Each event of a batch is marked exactly once, at the moment its own send
      ended; marking the rest does not touch it. */
  lemma {:induction false} MarkedRow(policy: Policy, rows: Rows, events: seq<Claimed>, responses: nat -> Response,
                                     start: Time, n: nat, i: nat)
    requires Distinct(events) && i < n <= |events| && events[i].id in rows
    ensures MarkAll(policy, rows, events, responses, start, n)[events[i].id]
            == MarkRow(policy, rows[events[i].id], events[i], responses(i), start + MarkedAfter(responses, i))
  {
    if i == n - 1 {
      UnmarkedRow(policy, rows, events, responses, start, n - 1, events[i].id);
    } else {
      MarkedRow(policy, rows, events, responses, start, n - 1, i);
    }
  }

  /** The loop after n events: table, clock and counters. */
  ghost predicate LoopAt(policy: Policy, was: Rows, events: seq<Claimed>, responses: nat -> Response, start: Time,
                         n: nat, rows: Rows, now: Time, out: Output)
    requires n <= |events|
  {
    && rows == MarkAll(policy, was, events, responses, start, n)
    && now == start + Elapsed(responses, n)
    && out == Tally(policy, events, responses, n)
  }

  /** Different events, each with a row. */
  ghost predicate AllStored(rows: Rows, events: seq<Claimed>) {
    Distinct(events) && forall i :: 0 <= i < |events| ==> events[i].id in rows
  }

  /** One more event through the loop. */
  lemma LoopGoesOn(policy: Policy, was: Rows, events: seq<Claimed>, responses: nat -> Response, start: Time, n: nat,
                   rows: Rows, now: Time, out: Output, rows': Rows, now': Time, out': Output)
    requires n < |events| && Distinct(events) && events[n].id in was && events[n].id in rows
    requires LoopAt(policy, was, events, responses, start, n, rows, now, out)
    requires now' == now + responses(n).took
    requires rows' == rows[events[n].id := MarkRow(policy, rows[events[n].id], events[n], responses(n), now')]
    requires out' == Counted(policy, out, events[n], responses(n))
    ensures LoopAt(policy, was, events, responses, start, n + 1, rows', now', out')
  {
    MarkAllStep(policy, was, events, responses, start, n);
  }

  // ----- what one event meets -----

  /** The least delay after attempt a that doubling up to a ceiling gives, without a word
      size. */
  function Doubled(base: int, max: int, a: nat): int
    requires a >= 1
  {
    if base * Backoff.Pow2(a - 1) <= max then base * Backoff.Pow2(a - 1) else max
  }

  /** The dispatcher's own policy: its limit, and delays that double up to the ceiling
      exactly where the doubling is harmless. */
  lemma PolicyDoublesIff(cfg: DispatchConfig, saturates: bool, a: nat)
    requires a >= 1 && 0 < cfg.backoffBase < Backoff.TWO63 && cfg.backoffMax < Backoff.TWO63
    ensures PolicyOf(cfg, saturates).maxAttempts == cfg.maxAttempts
    ensures PolicyOf(cfg, saturates).delay(a) == Doubled(cfg.backoffBase, cfg.backoffMax, a)
            <==> Backoff.Harmless(cfg.backoffBase, cfg.backoffMax, a - 1, saturates)
  {
    Backoff.DelayIsIdealIff(cfg.backoffBase, cfg.backoffMax, a - 1, saturates);
  }

  /** What an answer at a given time does to the row of an event: one more attempt; and
      it is delivered, or due again after the delay of that attempt, or given up on. */
  predicate Treated(cfg: DispatchConfig, saturates: bool, before: Row, response: Response, at: Time, after: Row) {
    && after.seqno == before.seqno && after.createdAt == before.createdAt && after.attempts == before.attempts + 1
    && (response.ok ==> after.delivered && after.failed == before.failed && after.nextAttempt == before.nextAttempt)
    && (!response.ok ==>
          && after.delivered == before.delivered
          && (after.failed <==> before.attempts + 1 >= cfg.maxAttempts)
          && after.nextAttempt == at + BackoffFor(cfg, before.attempts + 1, saturates))
  }

  lemma MarkTreats(cfg: DispatchConfig, saturates: bool, r: Row, e: Claimed, response: Response, at: Time)
    requires e.attempts == r.attempts
    ensures Treated(cfg, saturates, r, response, at, MarkRow(PolicyOf(cfg, saturates), r, e, response, at))
  {
  }

  /** The batch is pushed out to a time; nothing else about it and no other row changes. */
  predicate PushedOut(before: Rows, ids: set<EventId>, until: Time, after: Rows) {
    && after.Keys == before.Keys
    && forall id :: id in before && id in after ==>
         && (id !in ids ==> after[id] == before[id])
         && (id in ids ==>
               var r := before[id];
               after[id] == Row(r.seqno, r.attempts, until, r.delivered, r.failed, r.createdAt))
  }

  lemma LeasePushesOut(rows: Rows, ids: set<EventId>, until: Time)
    ensures PushedOut(rows, ids, until, LeaseRows(rows, ids, until))
  {
  }

  /** A row before a dispatch and after it, for an event of the batch: pushed out by the
      lease, and then treated if it came to be answered. */
  predicate EventTreated(cfg: DispatchConfig, saturates: bool, before: Row, start: Time, answered: bool,
                         response: Response, at: Time, after: Row) {
    var leased := before.(nextAttempt := start + LeaseFor(cfg));
    if answered then Treated(cfg, saturates, leased, response, at, after) else after == leased
  }

  /** Between the table before a dispatch and the one after: the first n events of the
      batch were answered one after the other, and outside the batch nothing changed. */
  ghost predicate Dispatched(cfg: DispatchConfig, saturates: bool, before: Rows, events: seq<Claimed>,
                             responses: nat -> Response, start: Time, n: nat, after: Rows) {
    && after.Keys == before.Keys
    && (forall i :: 0 <= i < |events| ==>
          && events[i].id in before && events[i].id in after
          && EventTreated(cfg, saturates, before[events[i].id], start, i < n, responses(i),
                          start + MarkedAfter(responses, i), after[events[i].id]))
    && (forall id :: id in before && id !in Ids(events) ==> id in after && after[id] == before[id])
  }

  lemma EventIsTreated(cfg: DispatchConfig, saturates: bool, rows: Rows, events: seq<Claimed>,
                       responses: nat -> Response, start: Time, n: nat, claimed: Rows, i: nat)
    requires Distinct(events) && n <= |events| && i < |events| && FromTable(rows, events[i])
    requires claimed == LeaseRows(rows, Ids(events), start + LeaseFor(cfg))
    ensures EventTreated(cfg, saturates, rows[events[i].id], start, i < n, responses(i),
                         start + MarkedAfter(responses, i),
                         MarkAll(PolicyOf(cfg, saturates), claimed, events, responses, start, n)[events[i].id])
  {
    var policy := PolicyOf(cfg, saturates);
    assert events[i].id in Ids(events);
    assert claimed[events[i].id] == rows[events[i].id].(nextAttempt := start + LeaseFor(cfg));
    if i < n {
      MarkedRow(policy, claimed, events, responses, start, n, i);
      MarkTreats(cfg, saturates, claimed[events[i].id], events[i], responses(i), start + MarkedAfter(responses, i));
    } else {
      UnmarkedRow(policy, claimed, events, responses, start, n, events[i].id);
    }
  }

  /** What Execute leaves behind, row by row. */
  lemma BatchIsDispatched(cfg: DispatchConfig, saturates: bool, rows: Rows, events: seq<Claimed>,
                          responses: nat -> Response, start: Time, n: nat, claimed: Rows, after: Rows)
    requires IsBatch(rows, start, cfg.batchSize, events) && n <= |events|
    requires claimed == LeaseRows(rows, Ids(events), start + LeaseFor(cfg))
    requires after == MarkAll(PolicyOf(cfg, saturates), claimed, events, responses, start, n)
    ensures Dispatched(cfg, saturates, rows, events, responses, start, n, after)
  {
    forall i | 0 <= i < |events|
      ensures events[i].id in rows
      ensures EventTreated(cfg, saturates, rows[events[i].id], start, i < n, responses(i),
                           start + MarkedAfter(responses, i), after[events[i].id])
    {
      assert FromTable(rows, events[i]);
      EventIsTreated(cfg, saturates, rows, events, responses, start, n, claimed, i);
    }
    forall id | id in rows && id !in Ids(events)
      ensures after[id] == rows[id]
    {
      UnmarkedRow(PolicyOf(cfg, saturates), claimed, events, responses, start, n, id);
    }
  }

  /** A batch, row by row: due rows, neither delivered nor given up on; one is left out
      only when the batch is full of others numbered no higher. */
  lemma BatchIsDue(rows: Rows, now: Time, limit: nat, events: seq<Claimed>)
    requires IsBatch(rows, now, limit, events)
    ensures forall i :: 0 <= i < |events| ==>
              var id := events[i].id;
              && id in rows && !rows[id].delivered && !rows[id].failed && rows[id].nextAttempt <= now
              && events[i].attempts == rows[id].attempts
    ensures forall id :: id in rows && !rows[id].delivered && !rows[id].failed && rows[id].nextAttempt <= now ==>
              id in Ids(events)
              || (|Ids(events)| == limit
                  && forall i :: 0 <= i < |events| ==> rows[events[i].id].seqno <= rows[id].seqno)
  {
    forall i | 0 <= i < |events|
      ensures FromTable(rows, events[i]) && events[i].id in Ids(events) && Due(rows, now, events[i].id)
    {
    }
    forall id | id in rows && Due(rows, now, id) && id !in Ids(events)
      ensures |Ids(events)| == limit && forall i :: 0 <= i < |events| ==> rows[events[i].id].seqno <= rows[id].seqno
    {
    }
  }

  class Dispatcher {
    var rows: Rows
    var now: Time
    const cfg: DispatchConfig
    const enabled: bool
    const saturates: bool
    ghost const policy: Policy

    ghost predicate Valid() {
      policy == PolicyOf(cfg, saturates)
    }

    constructor (cfg: DispatchConfig, enabled: bool, saturates: bool, rows: Rows)
      ensures Valid()
      ensures this.cfg == cfg && this.enabled == enabled && this.saturates == saturates && this.rows == rows
    {
      this.cfg, this.enabled, this.saturates, this.rows, now := cfg, enabled, saturates, rows, 0;
      policy := PolicyOf(cfg, saturates);
    }

    /** The due row with the smallest sequence number. */
    method First(due: set<EventId>) returns (id: EventId)
      requires due != {} && due <= rows.Keys
      ensures id in due && forall b :: b in due ==> rows[id].seqno <= rows[b].seqno
    {
      id :| id in due;
      var rest := due - {id};
      while rest != {}
        invariant id in due && rest <= due
        invariant forall b :: b in due - rest ==> rows[id].seqno <= rows[b].seqno
        decreases rest
      {
        var b :| b in rest;
        if rows[b].seqno < rows[id].seqno {
          id := b;
        }
        rest := rest - {b};
      }
    }

    /** The first batchSize due rows in order of sequence number. */
    method Select() returns (events: seq<Claimed>)
      ensures IsBatch(rows, now, cfg.batchSize, events)
    {
      var left := set id | id in rows && Due(rows, now, id);
      ghost var due := left;
      events := [];
      assert Ids(events) == {};
      while |events| < cfg.batchSize && left != {}
        invariant Picking(rows, due, left, events) && |events| <= cfg.batchSize
        decreases left
      {
        var id := First(left);
        var e := Claimed(id, rows[id].attempts);
        PickNext(rows, due, left, events, e);
        events, left := events + [e], left - {id};
      }
      LeadingIsBatch(rows, now, cfg.batchSize, due, events);
    }

    /** ClaimDueOutboxEvents: the least-numbered due rows, leased. */
    method Claim() returns (events: seq<Claimed>)
      modifies this`rows
      ensures IsBatch(old(rows), old(now), cfg.batchSize, events)
      ensures PushedOut(old(rows), Ids(events), old(now) + LeaseFor(cfg), rows)
      ensures rows == LeaseRows(old(rows), Ids(events), old(now) + LeaseFor(cfg))
    {
      events := Select();
      LeasePushesOut(rows, Ids(events), now + LeaseFor(cfg));
      rows := LeaseRows(rows, Ids(events), now + LeaseFor(cfg));
    }

    /** backoff: the delay after an attempt. */
    method RetryDelay(attempt: nat) returns (d: int)
      requires attempt >= 1
      ensures d == BackoffFor(cfg, attempt, saturates)
    {
      d := Backoff.Wrap64(Backoff.Pow2AsInt64(attempt - 1, saturates) * cfg.backoffBase);
      if d <= 0 || d > cfg.backoffMax {
        return cfg.backoffMax;
      }
    }

    /** One turn of the loop: send, then mark. */
    method Deliver(e: Claimed, response: Response, out: Output) returns (out': Output)
      requires Valid() && e.id in rows
      modifies this
      ensures now == old(now) + response.took
      ensures rows == old(rows)[e.id := MarkRow(policy, old(rows)[e.id], e, response, now)]
      ensures out' == Counted(policy, out, e, response)
    {
      var attempt := e.attempts + 1;
      now := now + response.took;
      if response.ok {
        rows := rows[e.id := rows[e.id].(delivered := true, attempts := rows[e.id].attempts + 1)];
        return out.(delivered := out.delivered + 1);
      }
      var giveUp := attempt >= cfg.maxAttempts;
      var delay := RetryDelay(attempt);
      var next := now + delay;
      rows := rows[e.id := rows[e.id].(attempts := rows[e.id].attempts + 1, nextAttempt := next, failed := giveUp)];
      if giveUp {
        out' := out.(gaveUp := out.gaveUp + 1);
      } else {
        out' := out.(failed := out.failed + 1);
      }
    }

    /** One turn of the loop whose mark is not refused. */
    method Turn(events: seq<Claimed>, responses: nat -> Response, done: nat, out: Output, ghost was: Rows, ghost start: Time)
      returns (out': Output)
      requires Valid() && done < |events| && AllStored(was, events)
      requires LoopAt(policy, was, events, responses, start, done, rows, now, out)
      modifies this
      ensures LoopAt(policy, was, events, responses, start, done + 1, rows, now, out')
    {
      ghost var rowsBefore, nowBefore := rows, now;
      out' := Deliver(events[done], responses(done), out);
      LoopGoesOn(policy, was, events, responses, start, done, rowsBefore, nowBefore, out, rows, now, out');
    }

    /** The loop over a claimed batch: every event up to the first refused mark is sent,
        marked and counted; from there on the table is left as the claim made it, though
        the event whose mark was refused has been sent. */
    method DeliverAll(events: seq<Claimed>, responses: nat -> Response, marks: nat -> bool)
      returns (out: Output, done: nat, sent: nat)
      requires Valid() && AllStored(rows, events)
      modifies this
      ensures StopsAt(marks, done, sent, |events|)
      ensures out == Tally(policy, events, responses, done)
      ensures rows == MarkAll(policy, old(rows), events, responses, old(now), done)
      ensures now == old(now) + Elapsed(responses, sent)
    {
      out, done, sent := Output(0, 0, 0), 0, 0;
      ghost var was, start := rows, now;
      while done < |events|
        invariant done <= |events| && AllSucceed(marks, done)
        invariant LoopAt(policy, was, events, responses, start, done, rows, now, out)
      {
        if !marks(done) {
          now := now + responses(done).took;
          sent := done + 1;
          return;
        }
        out := Turn(events, responses, done, out, was, start);
        done := done + 1;
      }
      sent := done;
    }

    /** A batch is claimed and dealt with. */
    method Dispatch(responses: nat -> Response, marks: nat -> bool)
      returns (out: Output, events: seq<Claimed>, done: nat, sent: nat)
      requires Valid()
      modifies this
      ensures IsBatch(old(rows), old(now), cfg.batchSize, events) && StopsAt(marks, done, sent, |events|)
      ensures rows == MarkAll(policy, LeaseRows(old(rows), Ids(events), old(now) + LeaseFor(cfg)), events,
                              responses, old(now), done)
      ensures out == Tally(policy, events, responses, done)
      ensures now == old(now) + Elapsed(responses, sent)
    {
      events := Claim();
      EventsAreStored(old(rows), old(now), cfg.batchSize, events, old(now) + LeaseFor(cfg));
      out, done, sent := DeliverAll(events, responses, marks);
    }

    /** Execute: nothing without a webhook. done is the number of events dealt with, the
        whole batch unless a mark was refused; from there on rows are as the claim left
        them. */
    method Execute(responses: nat -> Response, marks: nat -> bool)
      returns (skipped: bool, out: Output, events: seq<Claimed>, done: nat, sent: nat)
      requires Valid()
      modifies this
      ensures skipped <==> !enabled
      ensures StopsAt(marks, done, sent, |events|)
      ensures skipped ==> rows == old(rows) && now == old(now) && events == []
      ensures !skipped ==> IsBatch(old(rows), old(now), cfg.batchSize, events)
      ensures !skipped ==> rows == MarkAll(policy, LeaseRows(old(rows), Ids(events), old(now) + LeaseFor(cfg)), events,
                                           responses, old(now), done)
      ensures out == Tally(policy, events, responses, done)
      ensures now == old(now) + Elapsed(responses, sent)
    {
      events, out, done, sent := [], Output(0, 0, 0), 0, 0;
      skipped := !enabled;
      if enabled {
        out, events, done, sent := Dispatch(responses, marks);
      }
    }
  }

  lemma EventsAreStored(rows: Rows, now: Time, limit: nat, events: seq<Claimed>, until: Time)
    requires IsBatch(rows, now, limit, events)
    ensures Distinct(events) && forall i :: 0 <= i < |events| ==> events[i].id in LeaseRows(rows, Ids(events), until)
  {
    assert forall i :: 0 <= i < |events| ==> FromTable(rows, events[i]);
  }

  // ----- the lease against the batch -----

  ghost predicate Bounded(responses: nat -> Response, timeout: nat) {
    forall i: nat :: responses(i).took <= timeout
  }

  /** If every send ends within the timeout, event i is marked within (i+1)
      timeouts of the claim. */
  lemma {:induction false} MarkedInTime(responses: nat -> Response, timeout: nat, i: nat)
    requires Bounded(responses, timeout)
    ensures MarkedAfter(responses, i) <= (i + 1) * timeout
  {
    if i > 0 {
      MarkedInTime(responses, timeout, i - 1);
    }
    assert Elapsed(responses, i + 1) == Elapsed(responses, i) + responses(i).took;
  }

  lemma {:induction false} SlowestCase(timeout: nat, i: nat)
    ensures MarkedAfter(_ => Response(true, timeout), i) == (i + 1) * timeout
  {
    if i > 0 {
      SlowestCase(timeout, i - 1);
    }
  }

  ghost predicate CoversBatch(lease: nat, timeout: nat, n: nat) {
    forall responses: nat -> Response, i: nat ::
      Bounded(responses, timeout) && i < n ==> MarkedAfter(responses, i) < lease
  }

  /** Every event of an n-event batch is marked before a lease ends, however the
      receiver behaves within the timeout, exactly when n timeouts fit into it. */
  lemma LeaseCoversBatchIff(lease: nat, timeout: nat, n: nat)
    requires n > 0
    ensures CoversBatch(lease, timeout, n) <==> n * timeout < lease
  {
    if n * timeout < lease {
      forall responses: nat -> Response, i: nat | Bounded(responses, timeout) && i < n
        ensures MarkedAfter(responses, i) < lease
      {
        MarkedInTime(responses, timeout, i);
        Backoff.MulOrder(i + 1, n, timeout);
      }
    } else {
      var slow: nat -> Response := _ => Response(true, timeout);
      SlowestCase(timeout, n - 1);
      assert Bounded(slow, timeout) && MarkedAfter(slow, n - 1) == n * timeout;
    }
  }

  /** The lease is two timeouts and thirty seconds, cut to whole seconds; so it does
      outlast one attempt, and the one after it. */
  lemma LeaseOutlastsOneAttempt(cfg: DispatchConfig)
    ensures LeaseFor(cfg) % 1_000_000_000 == 0
    ensures LeaseFor(cfg) <= 2 * cfg.timeout + 30_000_000_000 < LeaseFor(cfg) + 1_000_000_000
    ensures 2 * cfg.timeout < LeaseFor(cfg)
  {
  }

  /** As shipped the lease covers batches of up to four events, although a batch
      may hold fifty. */
  lemma DefaultLeaseCoversFourEvents(n: nat)
    requires n > 0
    ensures CoversBatch(LeaseFor(DEFAULTS), DEFAULTS.timeout, n) <==> n <= 4
    ensures DEFAULTS.batchSize == 50
  {
    LeaseCoversBatchIff(LeaseFor(DEFAULTS), DEFAULTS.timeout, n);
  }

  /** As shipped the delay after attempt a is 10 * 2^(a-1) seconds, an hour at most: ten
      seconds exactly after the first. Delays never shrink, and the tenth attempt is the
      last. */
  lemma DefaultRetryDelays(a: nat, later: nat, saturates: bool)
    requires 1 <= a <= later
    ensures PolicyOf(DEFAULTS, saturates).delay(a) == Doubled(10_000_000_000, 3_600_000_000_000, a)
    ensures PolicyOf(DEFAULTS, saturates).delay(1) == 10_000_000_000
    ensures 10_000_000_000 <= BackoffFor(DEFAULTS, a, saturates)
            <= BackoffFor(DEFAULTS, later, saturates) <= 3_600_000_000_000
    ensures PolicyOf(DEFAULTS, saturates).maxAttempts == 10
  {
    Backoff.DispatcherDefaults(0, saturates);
    Backoff.DispatcherDefaults(a - 1, saturates);
    Backoff.DispatcherDefaults(later - 1, saturates);
    Backoff.IdealIsMonotone(10 * SECOND, 3600 * SECOND, a - 1, later - 1);
  }

  /** All the delays after attempts 1 to n together. */
  function DelaysUpTo(cfg: DispatchConfig, saturates: bool, n: nat): int {
    if n == 0 then 0 else DelaysUpTo(cfg, saturates, n - 1) + BackoffFor(cfg, n, saturates)
  }

  lemma Telescope(base: int, p: int)
    ensures base * (2 * p - 1) == base * (p - 1) + base * p
  {
    assert base * (2 * p - 1) == base * ((p - 1) + p);
  }

  /** Delay a is one doubling more than the one before, the ceiling not yet reached. */
  predicate Free(cfg: DispatchConfig, saturates: bool, a: nat)
    requires a >= 1
  {
    BackoffFor(cfg, a, saturates) == cfg.backoffBase * Backoff.Pow2(a - 1)
  }

  /** While the ceiling is not reached they add up to one base less than the next. */
  lemma {:induction false} DelaysAreGeometric(cfg: DispatchConfig, saturates: bool, n: nat)
    requires forall a: nat :: 1 <= a <= n ==> Free(cfg, saturates, a)
    ensures DelaysUpTo(cfg, saturates, n) == cfg.backoffBase * (Backoff.Pow2(n) - 1)
  {
    if n > 0 {
      DelaysAreGeometric(cfg, saturates, n - 1);
      assert Free(cfg, saturates, n);
      Telescope(cfg.backoffBase, Backoff.Pow2(n - 1));
    }
  }

  /** As shipped the waits between the ten attempts are 5110 seconds in all, well under
      two hours, and the hour's ceiling is never reached. */
  lemma DefaultAttemptsSpan(saturates: bool)
    ensures DelaysUpTo(DEFAULTS, saturates, DEFAULTS.maxAttempts - 1) == 5_110_000_000_000
    ensures forall a: nat :: 1 <= a < 10 ==> BackoffFor(DEFAULTS, a, saturates) <= 2_560_000_000_000
  {
    forall a: nat | 1 <= a <= 9
      ensures Free(DEFAULTS, saturates, a) && BackoffFor(DEFAULTS, a, saturates) <= 2_560_000_000_000
    {
      Backoff.DispatcherDefaults(a - 1, saturates);
      Backoff.Pow2Grows(a - 1, 8);
      assert Backoff.Pow2(8) == 256;
    }
    assert Backoff.Pow2(9) == 512;
    DelaysAreGeometric(DEFAULTS, saturates, 9);
  }
}
