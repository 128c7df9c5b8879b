/** The outbox cleaner: two deletes with two different cutoffs. */
module OutboxCleaner {
  import opened OutboxLeases

  class Cleaner {
    var rows: Rows
    const cfg: Config

    constructor (cfg: Config, rows: Rows)
      ensures this.cfg == cfg && this.rows == rows
    {
      this.cfg, this.rows := cfg, rows;
    }

    /** A pending event survives however old it is, and so does a settled one from the
        cutoff on; every survivor is as it was, and every other row is counted. */
    method DeleteOutboxEventsBefore(cutoff: Time) returns (n: nat)
      modifies this`rows
      ensures forall id :: id in rows <==>
                id in old(rows)
                && ((!old(rows)[id].delivered && !old(rows)[id].failed) || cutoff <= old(rows)[id].createdAt)
      ensures forall id :: id in rows ==> rows[id] == old(rows)[id]
      ensures |old(rows)| == |rows| + n
    {
      var gone := SettledBefore(rows, cutoff);
      RemovedRows(rows, gone);
      n := |gone|;
      rows := rows - gone;
    }

    /** A settled event survives however old it is, and so does a pending one from the
        cutoff on. */
    method DeleteStuckOutboxEvents(cutoff: Time) returns (n: nat)
      modifies this`rows
      ensures forall id :: id in rows <==>
                id in old(rows)
                && (old(rows)[id].delivered || old(rows)[id].failed || cutoff <= old(rows)[id].createdAt)
      ensures forall id :: id in rows ==> rows[id] == old(rows)[id]
      ensures |old(rows)| == |rows| + n
    {
      var gone := StuckBefore(rows, cutoff);
      RemovedRows(rows, gone);
      n := |gone|;
      rows := rows - gone;
    }

    /** Execute. The clock is read once for each delete: what is settled is judged
        at the first reading and what is pending at the second; a setting that is
        not positive keeps that half for ever. */
    method Execute(first: Time, second: Time) returns (settled: nat, stuck: nat)
      modifies this`rows
      ensures forall id :: id in rows <==> id in old(rows) && !Overdue(cfg, old(rows)[id], first, second)
      ensures forall id :: id in rows ==> rows[id] == old(rows)[id]
      ensures |old(rows)| == |rows| + settled + stuck
    {
      settled, stuck := 0, 0;
      if cfg.retention > 0 {
        settled := DeleteOutboxEventsBefore(first - cfg.retention);
      }
      if cfg.maxAge > 0 {
        stuck := DeleteStuckOutboxEvents(second - cfg.maxAge);
      }
    }
  }

  /** Settled past the retention at the first reading of the clock, or pending past the
      ceiling at the second. */
  predicate Overdue(cfg: Config, r: Row, first: Time, second: Time) {
    if r.delivered || r.failed then cfg.retention > 0 && r.createdAt < first - cfg.retention
    else cfg.maxAge > 0 && r.createdAt < second - cfg.maxAge
  }

  lemma RemovedRows(rows: Rows, gone: set<EventId>)
    requires gone <= rows.Keys
    ensures |rows| == |rows - gone| + |gone|
  {
    assert rows.Keys == (rows - gone).Keys + gone;
  }

  /** The two deletes are the protocol's two cleaning steps, with the clock moved
      on in between. */
  lemma CleaningInTheProtocol(cfg: Config, s: State, gap: nat, id: EventId)
    requires id in s.rows
    ensures var s1 := Next(cfg, s, CleanSettled);
            var s2 := Next(cfg, Next(cfg, s1, Tick(gap)), CleanStuck);
            && (id in s2.rows <==> !Overdue(cfg, s.rows[id], s.now, s.now + gap))
            && (id in s2.rows ==> s2.rows[id] == s.rows[id])
            && s2.sends == s.sends && s2.claims == s.claims
  {
    var s1 := Next(cfg, s, CleanSettled);
    assert id in s1.rows <==> s.rows[id].Pending() || !Overdue(cfg, s.rows[id], s.now, s.now + gap);
  }
}
