/** One run of the dispatch loop, seen as steps of the lease protocol. */
module DispatchRefinement {
  import opened Common
  import opened OutboxLeases
  import opened WebhookDispatcher

  /** Steps in a list, so that a run can be read from its front. */
  datatype Steps = Done | Then(first: Step, rest: Steps)

  function Flat(steps: Steps): seq<Step> {
    match steps
    case Done => []
    case Then(first, rest) => [first] + Flat(rest)
  }

  /** Where a run of steps ends, and whether every mark on the way beat its lease. */
  datatype Ending = Ending(disciplined: bool, rows: Rows, now: Time)

  function EndOf(cfg: Config, s: State, steps: Steps): Option<Ending>
    decreases steps
  {
    match steps
    case Done => Some(Ending(true, s.rows, s.now))
    case Then(first, rest) =>
      if !Possible(s, first) then None
      else Disciplined(EndOf(cfg, Next(cfg, s, first), rest), Enabled(s, first))
  }

  function Disciplined(e: Option<Ending>, enabled: bool): Option<Ending> {
    if e.Some? then Some(e.value.(disciplined := enabled && e.value.disciplined)) else None
  }

  /** An ending is that of the protocol's own runs. */
  lemma {:induction false} EndOfRun(cfg: Config, s: State, steps: Steps)
    ensures EndOf(cfg, s, steps).Some? <==> PossibleRun(cfg, s, Flat(steps))
    ensures PossibleRun(cfg, s, Flat(steps)) ==>
              EndOf(cfg, s, steps)
              == Some(Ending(ValidRun(cfg, s, Flat(steps)), Run(cfg, s, Flat(steps)).rows, Run(cfg, s, Flat(steps)).now))
    decreases steps
  {
    if steps.Then? {
      assert Flat(steps)[1..] == Flat(steps.rest);
      if Possible(s, steps.first) {
        EndOfRun(cfg, Next(cfg, s, steps.first), steps.rest);
      }
    }
  }

  // ----- the loop as steps -----

  function ClaimOf(batch: nat, e: Claimed, deadline: Time): Claim {
    Claim(batch, e.id, e.attempts, deadline, false)
  }

  function MarkStep(policy: Policy, c: Claim, response: Response, at: Time): Step {
    if response.ok then MarkDelivered(c) else MarkFailed(c, at + policy.delay(c.attempts + 1))
  }

  /** Send, wait for the answer, mark; and go on. */
  function EventSteps(policy: Policy, c: Claim, response: Response, at: Time, rest: Steps): Steps {
    Then(Send(c), Then(Tick(response.took), Then(MarkStep(policy, c.(sent := true), response, at), rest)))
  }

  function BatchSteps(policy: Policy, batch: nat, deadline: Time, events: seq<Claimed>, responses: nat -> Response,
                      start: Time, i: nat): Steps
    requires i <= |events|
    decreases |events| - i
  {
    if i == |events| then Done
    else
      EventSteps(policy, ClaimOf(batch, events[i], deadline), responses(i), start + Elapsed(responses, i + 1),
                 BatchSteps(policy, batch, deadline, events, responses, start, i + 1))
  }

  // ----- one turn -----

  lemma {:induction false} ElapsedGrows(responses: nat -> Response, i: nat, n: nat)
    requires i <= n
    ensures Elapsed(responses, i) <= Elapsed(responses, n)
  {
    if i < n {
      ElapsedGrows(responses, i, n - 1);
    }
  }

  lemma OneEvent(cfg: Config, policy: Policy, s: State, c: Claim, response: Response, at: Time, rest: Steps)
    returns (s3: State)
    requires c in s.claims && !c.sent && c.id in s.rows && policy.maxAttempts == cfg.maxAttempts
    ensures s3.now == s.now + response.took && s3.claims == s.claims - {c} - {c.(sent := true)}
    ensures s3.rows == s.rows[c.id := MarkRow(policy, s.rows[c.id], Claimed(c.id, c.attempts), response, at)]
    ensures EndOf(cfg, s, EventSteps(policy, c, response, at, rest))
            == Disciplined(EndOf(cfg, s3, rest),
                           s.now + response.took < c.deadline
                           && forall d :: d in s.claims && d != c ==> s.now + response.took < d.deadline)
  {
    var sent := c.(sent := true);
    var s1 := Next(cfg, s, Send(c));
    var s2 := Next(cfg, s1, Tick(response.took));
    s3 := Next(cfg, s2, MarkStep(policy, sent, response, at));
    assert sent in s1.claims;
    assert EndOf(cfg, s2, Then(MarkStep(policy, sent, response, at), rest)) == EndOf(cfg, s3, rest);
    assert Enabled(s1, Tick(response.took))
           <==> s.now + response.took < c.deadline
                && forall d :: d in s.claims && d != c ==> s.now + response.took < d.deadline;
  }

  /** The claims of the events from i on are held; what else is held under another
      batch number is someone else's. */
  ghost predicate Holding(claims: set<Claim>, batch: nat, deadline: Time, events: seq<Claimed>, i: nat, others: set<Claim>) {
    && (forall j :: i <= j < |events| ==> ClaimOf(batch, events[j], deadline) in claims)
    && (forall c :: c in claims && c.batch == batch ==> c.deadline == deadline)
    && (forall c :: c in others ==> c.batch != batch)
    && (forall c: Claim :: c.batch != batch ==> (c in claims <==> c in others))
  }

  /** The time is within the loop's own lease and everyone else's. */
  ghost predicate BeforeAll(t: Time, deadline: Time, others: set<Claim>) {
    t < deadline && forall d :: d in others ==> t < d.deadline
  }

  lemma HoldingGoesOn(claims: set<Claim>, batch: nat, deadline: Time, events: seq<Claimed>, i: nat, others: set<Claim>)
    requires i < |events| && Distinct(events) && Holding(claims, batch, deadline, events, i, others)
    ensures var c := ClaimOf(batch, events[i], deadline);
            Holding(claims - {c} - {c.(sent := true)}, batch, deadline, events, i + 1, others)
  {
  }

  lemma WhoseLeases(claims: set<Claim>, batch: nat, deadline: Time, events: seq<Claimed>, i: nat, others: set<Claim>, t: Time)
    requires i < |events| && Holding(claims, batch, deadline, events, i, others)
    ensures var c := ClaimOf(batch, events[i], deadline);
            (t < c.deadline && forall d :: d in claims && d != c ==> t < d.deadline) <==> BeforeAll(t, deadline, others)
  {
    forall d | d in others
      ensures d in claims && d != ClaimOf(batch, events[i], deadline)
    {
    }
  }

  /** Where the loop stands before event i. */
  ghost predicate At(s: State, policy: Policy, leased: Rows, batch: nat, deadline: Time, events: seq<Claimed>,
                     responses: nat -> Response, start: Time, i: nat, others: set<Claim>)
    requires i <= |events|
  {
    && Distinct(events) && (forall j :: 0 <= j < |events| ==> events[j].id in leased)
    && s.now == start + Elapsed(responses, i)
    && s.rows == MarkAll(policy, leased, events, responses, start, i)
    && Holding(s.claims, batch, deadline, events, i, others)
  }

  lemma OneTurn(cfg: Config, policy: Policy, s: State, leased: Rows, batch: nat, deadline: Time,
                events: seq<Claimed>, responses: nat -> Response, start: Time, i: nat, others: set<Claim>, rest: Steps)
    returns (s3: State)
    requires i < |events| && policy.maxAttempts == cfg.maxAttempts
    requires At(s, policy, leased, batch, deadline, events, responses, start, i, others)
    ensures At(s3, policy, leased, batch, deadline, events, responses, start, i + 1, others)
    ensures EndOf(cfg, s, EventSteps(policy, ClaimOf(batch, events[i], deadline), responses(i),
                                     start + Elapsed(responses, i + 1), rest))
            == Disciplined(EndOf(cfg, s3, rest), BeforeAll(start + Elapsed(responses, i + 1), deadline, others))
  {
    var c := ClaimOf(batch, events[i], deadline);
    MarkAllStep(policy, leased, events, responses, start, i);
    HoldingGoesOn(s.claims, batch, deadline, events, i, others);
    WhoseLeases(s.claims, batch, deadline, events, i, others, start + Elapsed(responses, i + 1));
    s3 := OneEvent(cfg, policy, s, c, responses(i), start + Elapsed(responses, i + 1), rest);
  }

  // ----- the whole loop -----

  /** The loop from event i on, run as protocol steps. */
  function LoopRun(cfg: Config, policy: Policy, s: State, batch: nat, deadline: Time, events: seq<Claimed>,
                   responses: nat -> Response, start: Time, i: nat): Option<Ending>
    requires i <= |events|
  {
    EndOf(cfg, s, BatchSteps(policy, batch, deadline, events, responses, start, i))
  }

  /** The events from i on are all answered before the lease ends, and before anyone
      else's does. */
  ghost predicate InTime(events: seq<Claimed>, responses: nat -> Response, start: Time, deadline: Time, i: nat,
                         others: set<Claim>)
  {
    i == |events| || BeforeAll(start + Elapsed(responses, |events|), deadline, others)
  }

  /** Where the loop ends: with the table all marked, in time or not. */
  ghost function LoopEnd(policy: Policy, leased: Rows, deadline: Time, events: seq<Claimed>, responses: nat -> Response,
                         start: Time, i: nat, others: set<Claim>): Ending
  {
    Ending(InTime(events, responses, start, deadline, i, others),
           MarkAll(policy, leased, events, responses, start, |events|), start + Elapsed(responses, |events|))
  }

  lemma TurnBeforeTheRest(cfg: Config, policy: Policy, s: State, s3: State, batch: nat, deadline: Time,
                          events: seq<Claimed>, responses: nat -> Response, start: Time, i: nat, enabled: bool)
    requires i < |events|
    requires var rest := BatchSteps(policy, batch, deadline, events, responses, start, i + 1);
             EndOf(cfg, s, EventSteps(policy, ClaimOf(batch, events[i], deadline), responses(i),
                                      start + Elapsed(responses, i + 1), rest))
             == Disciplined(EndOf(cfg, s3, rest), enabled)
    ensures LoopRun(cfg, policy, s, batch, deadline, events, responses, start, i)
            == Disciplined(LoopRun(cfg, policy, s3, batch, deadline, events, responses, start, i + 1),
                           enabled)
  {
  }

  lemma EndingOfATurn(policy: Policy, leased: Rows, deadline: Time, events: seq<Claimed>, responses: nat -> Response,
                      start: Time, i: nat, others: set<Claim>)
    requires i < |events|
    ensures Disciplined(Some(LoopEnd(policy, leased, deadline, events, responses, start, i + 1, others)),
                        BeforeAll(start + Elapsed(responses, i + 1), deadline, others))
            == Some(LoopEnd(policy, leased, deadline, events, responses, start, i, others))
  {
    ElapsedGrows(responses, i + 1, |events|);
  }

  lemma EndOfTheLoop(cfg: Config, policy: Policy, s: State, leased: Rows, batch: nat, deadline: Time,
                     events: seq<Claimed>, responses: nat -> Response, start: Time, i: nat, others: set<Claim>)
    requires i == |events|
    requires At(s, policy, leased, batch, deadline, events, responses, start, i, others)
    ensures LoopRun(cfg, policy, s, batch, deadline, events, responses, start, i)
            == Some(LoopEnd(policy, leased, deadline, events, responses, start, i, others))
  {
  }

  lemma NextTurn(cfg: Config, policy: Policy, s: State, leased: Rows, batch: nat, deadline: Time,
                 events: seq<Claimed>, responses: nat -> Response, start: Time, i: nat, others: set<Claim>)
    returns (s3: State)
    requires i < |events| && policy.maxAttempts == cfg.maxAttempts
    requires At(s, policy, leased, batch, deadline, events, responses, start, i, others)
    ensures At(s3, policy, leased, batch, deadline, events, responses, start, i + 1, others)
    ensures LoopRun(cfg, policy, s, batch, deadline, events, responses, start, i)
            == Disciplined(LoopRun(cfg, policy, s3, batch, deadline, events, responses, start, i + 1),
                           BeforeAll(start + Elapsed(responses, i + 1), deadline, others))
  {
    var rest := BatchSteps(policy, batch, deadline, events, responses, start, i + 1);
    s3 := OneTurn(cfg, policy, s, leased, batch, deadline, events, responses, start, i, others, rest);
    TurnBeforeTheRest(cfg, policy, s, s3, batch, deadline, events, responses, start, i,
                      BeforeAll(start + Elapsed(responses, i + 1), deadline, others));
  }

  /** From event i on, the loop is a run of the protocol that ends with the same
      table; and it keeps the lease discipline exactly when the last answer comes
      before its own lease and everyone else's ends. */
  lemma {:induction false} LoopIsARun(cfg: Config, policy: Policy, s: State, leased: Rows, batch: nat, deadline: Time,
                                      events: seq<Claimed>, responses: nat -> Response, start: Time, i: nat, others: set<Claim>)
    requires i <= |events| && policy.maxAttempts == cfg.maxAttempts
    requires At(s, policy, leased, batch, deadline, events, responses, start, i, others)
    ensures LoopRun(cfg, policy, s, batch, deadline, events, responses, start, i)
            == Some(LoopEnd(policy, leased, deadline, events, responses, start, i, others))
    decreases |events| - i
  {
    if i == |events| {
      EndOfTheLoop(cfg, policy, s, leased, batch, deadline, events, responses, start, i, others);
    } else {
      var s3 := NextTurn(cfg, policy, s, leased, batch, deadline, events, responses, start, i, others);
      LoopIsARun(cfg, policy, s3, leased, batch, deadline, events, responses, start, i + 1, others);
      TurnThenRest(cfg, policy, s, s3, leased, batch, deadline, events, responses, start, i, others);
    }
  }

  lemma TurnThenRest(cfg: Config, policy: Policy, s: State, s3: State, leased: Rows, batch: nat, deadline: Time,
                     events: seq<Claimed>, responses: nat -> Response, start: Time, i: nat, others: set<Claim>)
    requires i < |events|
    requires LoopRun(cfg, policy, s, batch, deadline, events, responses, start, i)
             == Disciplined(LoopRun(cfg, policy, s3, batch, deadline, events, responses, start, i + 1),
                            BeforeAll(start + Elapsed(responses, i + 1), deadline, others))
    requires LoopRun(cfg, policy, s3, batch, deadline, events, responses, start, i + 1)
             == Some(LoopEnd(policy, leased, deadline, events, responses, start, i + 1, others))
    ensures LoopRun(cfg, policy, s, batch, deadline, events, responses, start, i)
            == Some(LoopEnd(policy, leased, deadline, events, responses, start, i, others))
  {
    EndingOfATurn(policy, leased, deadline, events, responses, start, i, others);
  }

  ghost predicate AfterClaim(s: State, s1: State, until: Time, events: seq<Claimed>) {
    && s1.now == s.now && s1.rows == LeaseRows(s.rows, Ids(events), until)
    && (forall j :: 0 <= j < |events| ==> ClaimOf(s.batches, events[j], until) in s1.claims)
    && (forall c :: c in s1.claims ==> c in s.claims || (c.batch == s.batches && c.deadline == until))
    && s.claims <= s1.claims
  }

  /** The claim statement, and what it adds in front of a run of the rest. */
  lemma ClaimTurn(cfg: Config, s: State, until: Time, limit: nat, events: seq<Claimed>, rest: Steps)
    returns (s1: State)
    requires until == s.now + cfg.lease && IsBatch(s.rows, s.now, limit, events)
    ensures AfterClaim(s, s1, until, events)
    ensures EndOf(cfg, s, Then(ClaimDue(limit, Ids(events)), rest)) == EndOf(cfg, s1, rest)
  {
    s1 := Next(cfg, s, ClaimDue(limit, Ids(events)));
    assert Ids(events) <= s.rows.Keys;
    forall j | 0 <= j < |events|
      ensures ClaimOf(s.batches, events[j], until) in s1.claims
    {
      assert FromTable(s.rows, events[j]);
      assert events[j].id in Ids(events);
    }
  }

  /** Execute as protocol steps. */
  function DispatchSteps(policy: Policy, s: State, until: Time, limit: nat, events: seq<Claimed>,
                         responses: nat -> Response): Steps
  {
    Then(ClaimDue(limit, Ids(events)), BatchSteps(policy, s.batches, until, events, responses, s.now, 0))
  }

  function DispatchRun(cfg: Config, policy: Policy, s: State, until: Time, limit: nat, events: seq<Claimed>,
                       responses: nat -> Response): Option<Ending>
  {
    EndOf(cfg, s, DispatchSteps(policy, s, until, limit, events, responses))
  }

  lemma DispatchBegins(cfg: Config, policy: Policy, s: State, s1: State, until: Time, limit: nat, events: seq<Claimed>,
                       responses: nat -> Response)
    requires var rest := BatchSteps(policy, s.batches, until, events, responses, s.now, 0);
             EndOf(cfg, s, Then(ClaimDue(limit, Ids(events)), rest)) == EndOf(cfg, s1, rest)
    ensures DispatchRun(cfg, policy, s, until, limit, events, responses)
            == LoopRun(cfg, policy, s1, s.batches, until, events, responses, s.now, 0)
  {
  }

  lemma ClaimBeforeTheLoop(cfg: Config, policy: Policy, s: State, until: Time, limit: nat, events: seq<Claimed>,
                           responses: nat -> Response)
    returns (s1: State)
    requires until == s.now + cfg.lease && IsBatch(s.rows, s.now, limit, events)
    ensures AfterClaim(s, s1, until, events)
    ensures DispatchRun(cfg, policy, s, until, limit, events, responses)
            == LoopRun(cfg, policy, s1, s.batches, until, events, responses, s.now, 0)
  {
    s1 := ClaimTurn(cfg, s, until, limit, events, BatchSteps(policy, s.batches, until, events, responses, s.now, 0));
    DispatchBegins(cfg, policy, s, s1, until, limit, events, responses);
  }

  lemma LoopAfterClaim(cfg: Config, policy: Policy, s: State, s1: State, until: Time, limit: nat, events: seq<Claimed>,
                       responses: nat -> Response)
    requires policy.maxAttempts == cfg.maxAttempts && IsBatch(s.rows, s.now, limit, events)
    requires AfterClaim(s, s1, until, events) && BatchesAreOld(s)
    ensures LoopRun(cfg, policy, s1, s.batches, until, events, responses, s.now, 0)
            == Some(LoopEnd(policy, LeaseRows(s.rows, Ids(events), until), until, events, responses, s.now, 0, s.claims))
  {
    EventsAreStored(s.rows, s.now, limit, events, until);
    LoopIsARun(cfg, policy, s1, LeaseRows(s.rows, Ids(events), until), s.batches, until, events, responses, s.now, 0,
               s.claims);
  }

  /** A claim carries the number of the claim statement that made it. */
  ghost predicate BatchesAreOld(s: State) {
    forall c :: c in s.claims ==> c.batch < s.batches
  }

  /** That is so in every run there can be, disciplined or not. */
  lemma {:induction false} BatchesStayOld(cfg: Config, s: State, steps: seq<Step>)
    requires BatchesAreOld(s) && PossibleRun(cfg, s, steps)
    ensures BatchesAreOld(Run(cfg, s, steps))
    decreases |steps|
  {
    if steps != [] {
      BatchesStayOld(cfg, Next(cfg, s, steps[0]), steps[1..]);
    }
  }

  /** Execute against the protocol while nobody else takes a step, whatever claims
      others hold: the loop's effect on the table is that of a run of protocol steps,
      and every mark on that run beats all leases held exactly when the whole batch is
      answered within the batch's own lease and within everyone else's. */
  lemma DispatchIsAProtocolRun(cfg: Config, policy: Policy, s: State, until: Time, limit: nat, events: seq<Claimed>,
                               responses: nat -> Response)
    requires policy.maxAttempts == cfg.maxAttempts && IsBatch(s.rows, s.now, limit, events)
    requires until == s.now + cfg.lease && BatchesAreOld(s)
    ensures DispatchRun(cfg, policy, s, until, limit, events, responses)
            == Some(LoopEnd(policy, LeaseRows(s.rows, Ids(events), until), until, events, responses, s.now, 0, s.claims))
  {
    var s1 := ClaimBeforeTheLoop(cfg, policy, s, until, limit, events, responses);
    LoopAfterClaim(cfg, policy, s, s1, until, limit, events, responses);
  }
}
