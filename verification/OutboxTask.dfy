/** The outbox task as it is written: each mapper update and each part of `processOne` makes
    its step on the live table, and a whole scan keeps what every run keeps. */
module OutboxTask {
  import opened Outbox
  import opened OutboxGuarantees

  predicate IsLeast(m: EventId, ids: set<EventId>) {
    m in ids && forall id | id in ids :: m <= id
  }

  lemma {:induction false} HasLeast(ids: set<EventId>)
    requires ids != {}
    ensures exists m :: IsLeast(m, ids)
    decreases |ids|
  {
    var m :| m in ids;
    var rest := ids - {m};
    if rest == {} {
      assert ids == {m};
      assert IsLeast(m, ids);
    } else {
      HasLeast(rest);
      var least :| IsLeast(least, rest);
      assert forall id | id in ids :: id == m || id in rest;
      assert IsLeast(if m <= least then m else least, ids);
    }
  }

  /** The jobs of all other tickets are as before. */
  ghost predicate OtherJobs(jobs: map<Ticket, Job>, jobs': map<Ticket, Job>, ticket: Ticket) {
    forall t | t != ticket :: (t in jobs' <==> t in jobs) && (t in jobs' ==> jobs'[t] == jobs[t])
  }

  lemma OtherJobsTwice(jobs: map<Ticket, Job>, jobs': map<Ticket, Job>, jobs'': map<Ticket, Job>, ticket: Ticket)
    requires OtherJobs(jobs, jobs', ticket) && OtherJobs(jobs', jobs'', ticket)
    ensures OtherJobs(jobs, jobs'', ticket)
  {
  }

  predicate Increasing(ids: seq<EventId>) {
    forall i, j | 0 <= i < j < |ids| :: ids[i] < ids[j]
  }

  /** How one event of a scan goes: whether invalidation succeeds, whether the finishing
      update fails. */
  datatype Outcome = Outcome(ok: bool, fault: Fault)

  predicate Succeeds(seen: Row, outcome: Outcome) {
    outcome.ok && seen.cacheName == "shop"
  }

  /** The finishing update of the success takes effect. */
  predicate Finishes(seen: Row, outcome: Outcome) {
    Succeeds(seen, outcome) && outcome.fault != NotApplied
  }

  /** What an attempt makes of a waiting row that was listed as `seen`. */
  predicate Worked(c: Config, seen: Row, row: Row, outcome: Outcome, now: Time, row': Row) {
    var n := seen.retryCount + 1;
    if Finishes(seen, outcome) && seen.stage == Initial then
      row' == row.(status := Waiting, stage := Delayed, retryCount := 0, nextRetryTime := now + c.delay)
    else if Finishes(seen, outcome) then row' == row.(status := Completed, nextRetryTime := now + c.lease)
    else if n >= c.maxRetries then row' == row.(status := Dead, retryCount := n, nextRetryTime := now + c.lease)
    else row' == row.(status := Waiting, retryCount := n, nextRetryTime := now + Backoff(c, n))
  }

  /** What an attempt writes to the log. */
  predicate Logged(log: seq<Entry>, event: EventId, seen: Row, outcome: Outcome, now: Time, log': seq<Entry>) {
    var tried := Invalidation(event, seen.stage, Succeeds(seen, outcome), now);
    log' == if Finishes(seen, outcome) && seen.stage == Initial then log + [tried, Scheduling(event, now)] else log + [tried]
  }

  /** A row that is not waiting is left alone. A waiting one is worked on, and nothing else
      changes. */
  predicate WorkedOnce(c: Config, now: Time, j: Job, outcome: Outcome, t: Table, entries: seq<Entry>, t': Table, entries': seq<Entry>) {
    j.event in t &&
    if t[j.event].status == Waiting then
      j.event in t' && t' == t[j.event := t'[j.event]] && Worked(c, j.seen, t[j.event], outcome, now, t'[j.event]) &&
      Logged(entries, j.event, j.seen, outcome, now, entries')
    else t' == t && entries' == entries
  }

  /** The row after the finishing update, for a worker that holds it. */
  predicate Closes(c: Config, now: Time, j: Job, row: Row, fault: Fault, row': Row)
    requires j.phase.Invalidated?
  {
    var n := j.seen.retryCount + 1;
    if j.phase.ok && fault != NotApplied then
      row' == if j.seen.stage == Initial
              then row.(status := Waiting, stage := Delayed, retryCount := 0, nextRetryTime := now + c.delay)
              else row.(status := Completed)
    else
      row' == if n >= c.maxRetries then row.(status := Dead, retryCount := n)
              else row.(status := Waiting, retryCount := n, nextRetryTime := now + Backoff(c, n))
  }

  /** The due events with the least ids, in order, up to the batch size. */
  ghost predicate DueFirst(c: Config, now: Time, t: Table, ids: seq<EventId>)
  {
    |ids| <= c.batchSize && Increasing(ids) && (forall id | id in ids :: id in t && Due(t[id], now)) &&
    forall id | id in t && Due(t[id], now) && id !in ids :: |ids| == c.batchSize && forall listed | listed in ids :: listed < id
  }

  /** The rows of the first `n` listed events are what attempts make of them, all others are
      as they were. */
  ghost predicate RowsWorked(c: Config, now: Time, listed: Table, ids: seq<EventId>, outcomes: nat -> Outcome, n: nat, t: Table)
    requires n <= |ids|
  {
    t.Keys == listed.Keys && (forall id | id in ids :: id in listed) &&
    (forall i | 0 <= i < n :: Worked(c, listed[ids[i]], listed[ids[i]], outcomes(i), now, t[ids[i]])) &&
    (forall id | id in listed && id !in ids[..n] :: t[id] == listed[id])
  }

  /** Since `from`, each of the first `n` listed events has been invalidated once, with its
      outcome, and no other event at all. */
  ghost predicate TriedEach(now: Time, listed: Table, ids: seq<EventId>, outcomes: nat -> Outcome, n: nat, entries: seq<Entry>, from: nat)
    requires n <= |ids|
  {
    (forall id | id in ids :: id in listed) && from <= |entries| &&
    (forall i | 0 <= i < n ::
      TriedOnce(entries, from, Invalidation(ids[i], listed[ids[i]].stage, Succeeds(listed[ids[i]], outcomes(i)), now))) &&
    (forall k | from <= k < |entries| :: entries[k].event in ids[..n])
  }

  /** From here on the log has exactly one invalidation of this event, and it is this one. */
  ghost predicate TriedOnce(log: seq<Entry>, from: nat, tried: Entry) {
    exists k | from <= k < |log| && log[k] == tried ::
      forall m | from <= m < |log| && log[m].Invalidation? && log[m].event == tried.event :: m == k
  }

  /** Backoff starts at one second, doubles up to the twentieth time, and is capped. */
  lemma BackoffDoubles(c: Config, n: nat)
    requires n >= 1
    ensures Backoff(c, 1) == 1000 * (if c.maxBackoffSeconds <= 1 then c.maxBackoffSeconds else 1)
    ensures n <= 20 ==>
      Backoff(c, n + 1) ==
        (if 2 * Backoff(c, n) <= 1000 * c.maxBackoffSeconds then 2 * Backoff(c, n) else 1000 * c.maxBackoffSeconds)
    ensures n > 20 ==> Backoff(c, n + 1) == Backoff(c, n)
  {
    assert n <= 20 ==> PowerOfTwo(n) == 2 * PowerOfTwo(n - 1);
  }

  class Task {
    const config: Config
    var table: Table
    var jobs: map<Ticket, Job>
    var now: Time
    var log: seq<Entry>

    constructor (config: Config)
      ensures Empty(Now()) && Invariant(config, Now()) && this.config == config
    {
      this.config, table, jobs, now, log := config, map[], map[], 0, [];
    }

    ghost function Now(): State
      reads this
    {
      State(table, jobs, now, log)
    }

    // ------------------------------------------------------------ the mapper

    /** `findDue`: the due events with the least ids, in order, at most `limit` of them. */
    method FindDue(limit: nat) returns (ids: seq<EventId>)
      ensures |ids| <= limit && Increasing(ids)
      ensures forall id | id in ids :: id in table && Due(table[id], now)
      ensures forall id | id in table :: Due(table[id], now) <==> table[id].status == Waiting && table[id].nextRetryTime <= now
      ensures forall id | id in table && Due(table[id], now) && id !in ids ::
                |ids| == limit && forall listed | listed in ids :: listed < id
    {
      var todo := set id | id in table && Due(table[id], now);
      ids := [];
      while todo != {} && |ids| < limit
        invariant |ids| <= limit && Increasing(ids)
        invariant forall id | id in ids :: id in table && Due(table[id], now)
        invariant forall id | id in todo :: id in table && Due(table[id], now)
        invariant forall id, listed | id in todo && listed in ids :: listed < id
        invariant forall id | id in table && Due(table[id], now) :: id in ids || id in todo
        decreases |todo|
      {
        HasLeast(todo);
        var id :| id in todo && IsLeast(id, todo);
        forall k | 0 <= k < |ids| ensures ids[k] < id {
          assert ids[k] in ids;
        }
        ids := ids + [id];
        todo := todo - {id};
      }
    }

    method ClaimRow(id: EventId, leaseDeadline: Time) returns (affected: nat)
      modifies `table
      ensures table == Claimed(old(table), id, leaseDeadline)
      ensures affected == if id in old(table) && old(table)[id].status == Waiting then 1 else 0
      ensures table == if affected == 1
                       then old(table)[id := old(table)[id].(status := Processing, nextRetryTime := leaseDeadline)]
                       else old(table)
    {
      if id !in table || table[id].status != Waiting {
        return 0;
      }
      table := table[id := table[id].(status := Processing, nextRetryTime := leaseDeadline)];
      return 1;
    }

    method ScheduleDelayedStage(id: EventId, next: Time)
      modifies `table
      ensures table == StageDelayed(old(table), id, next)
      ensures table == if id in old(table) && old(table)[id].status == Processing
                       then old(table)[id := old(table)[id].(status := Waiting, stage := Delayed, retryCount := 0, nextRetryTime := next)]
                       else old(table)
    {
      if id in table && table[id].status == Processing {
        table := table[id := table[id].(status := Waiting, stage := Delayed, retryCount := 0, nextRetryTime := next)];
      }
    }

    method MarkCompleted(id: EventId)
      modifies `table
      ensures table == MarkedCompleted(old(table), id)
      ensures table == if id in old(table) && old(table)[id].status == Processing
                       then old(table)[id := old(table)[id].(status := Completed)] else old(table)
    {
      if id in table && table[id].status == Processing {
        table := table[id := table[id].(status := Completed)];
      }
    }

    method MarkRetry(id: EventId, retryCount: nat, next: Time)
      modifies `table
      ensures table == MarkedRetry(old(table), id, retryCount, next)
      ensures table == if id in old(table) && old(table)[id].status == Processing
                       then old(table)[id := old(table)[id].(status := Waiting, retryCount := retryCount, nextRetryTime := next)]
                       else old(table)
    {
      if id in table && table[id].status == Processing {
        table := table[id := table[id].(status := Waiting, retryCount := retryCount, nextRetryTime := next)];
      }
    }

    method MarkDead(id: EventId, retryCount: nat)
      modifies `table
      ensures table == MarkedDead(old(table), id, retryCount)
      ensures table == if id in old(table) && old(table)[id].status == Processing
                       then old(table)[id := old(table)[id].(status := Dead, retryCount := retryCount)] else old(table)
    {
      if id in table && table[id].status == Processing {
        table := table[id := table[id].(status := Dead, retryCount := retryCount)];
      }
    }

    method RecoverExpiredClaims()
      modifies `table
      ensures Now() == Next(config, old(Now()), Recover)
      ensures table.Keys == old(table).Keys && forall id | id in table ::
        table[id] == if old(table)[id].status == Processing && old(table)[id].nextRetryTime <= now
                     then old(table)[id].(status := Waiting) else old(table)[id]
    {
      table := map id | id in table ::
        if table[id].status == Processing && table[id].nextRetryTime <= now then table[id].(status := Waiting) else table[id];
    }

    /** `recordShopInvalidation`: a waiting first-stage row, or an exception if nothing was
        inserted. */
    method RecordShopInvalidation(id: EventId, shop: nat, inserts: bool) returns (threw: bool)
      requires Invariant(config, Now()) && id !in table
      modifies `table
      ensures threw == !inserts && Invariant(config, Now())
      ensures Now() == if threw then old(Now()) else Next(config, old(Now()), Record(id, shop))
      ensures !threw ==> table == old(table)[id := Row("shop", shop, Initial, Waiting, 0, now)]
    {
      if !inserts {
        return true;
      }
      StepKeepsInvariant(config, Now(), Record(id, shop));
      hide Invariant;
      table := table[id := NewRow(shop, now)];
      return false;
    }

    // ------------------------------------------------------------ processOne

    /** The claim; the worker goes on only if it affected the row. */
    method Claiming(ticket: Ticket) returns (held: bool)
      requires Possible(Now(), Claim(ticket))
      modifies this
      ensures Now() == Next(config, old(Now()), Claim(ticket))
      ensures held == (ticket in jobs) && (held ==> InPhase(Now(), ticket, Held))
      ensures now == old(now) && log == old(log) && OtherJobs(old(jobs), jobs, ticket)
      ensures var j := old(jobs)[ticket];
              held == (j.event in old(table) && old(table)[j.event].status == Waiting) &&
              (held ==> jobs[ticket] == j.(phase := Held) &&
                        table == old(table)[j.event := old(table)[j.event].(status := Processing, nextRetryTime := now + config.lease)]) &&
              (!held ==> table == old(table))
    {
      var j := jobs[ticket];
      var affected := ClaimRow(j.event, now + config.lease);
      held := affected == 1;
      jobs := if held then jobs[ticket := j.(phase := Held)] else jobs - {ticket};
    }

    /** `invalidateShop`, which throws for an unsupported cache name as for a failed step. */
    method Invalidating(ticket: Ticket, ok: bool)
      requires InPhase(Now(), ticket, Held)
      modifies this
      ensures Now() == Next(config, old(Now()), Invalidate(ticket, ok && old(jobs[ticket]).seen.cacheName == "shop"))
      ensures ticket in jobs && jobs[ticket].phase.Invalidated?
      ensures now == old(now) && table == old(table) && OtherJobs(old(jobs), jobs, ticket)
      ensures var j := old(jobs)[ticket];
              var ok' := ok && j.seen.cacheName == "shop";
              jobs[ticket] == j.(phase := Invalidated(ok')) && log == old(log) + [Invalidation(j.event, j.seen.stage, ok', now)]
    {
      var j := jobs[ticket];
      var succeeds := ok && j.seen.cacheName == "shop";
      jobs := jobs[ticket := j.(phase := Invalidated(succeeds))];
      log := log + [Invalidation(j.event, j.seen.stage, succeeds, now)];
    }

    method HandleFailure(event: EventId, seen: Row)
      modifies `table
      ensures table == FailureHandled(config, old(table), event, seen, now)
      ensures !(event in old(table) && old(table)[event].status == Processing) ==> table == old(table)
      ensures event in old(table) && old(table)[event].status == Processing ==>
        table == old(table)[event :=
          if seen.retryCount + 1 >= config.maxRetries
          then old(table)[event].(status := Dead, retryCount := seen.retryCount + 1)
          else old(table)[event].(status := Waiting, retryCount := seen.retryCount + 1,
                                  nextRetryTime := now + Backoff(config, seen.retryCount + 1))]
    {
      var retryCount := seen.retryCount + 1;
      if retryCount >= config.maxRetries {
        MarkDead(event, retryCount);
        return;
      }
      MarkRetry(event, retryCount, now + Backoff(config, retryCount));
    }

    method HandleSuccess(event: EventId, seen: Row)
      modifies `table, `log
      ensures table == SuccessHandled(config, old(table), event, seen, now)
      ensures log == if seen.stage == Initial && event in old(table) && old(table)[event].status == Processing
                     then old(log) + [Scheduling(event, now)] else old(log)
      ensures !(event in old(table) && old(table)[event].status == Processing) ==> table == old(table)
      ensures event in old(table) && old(table)[event].status == Processing ==>
        table == old(table)[event :=
          if seen.stage == Initial
          then old(table)[event].(status := Waiting, stage := Delayed, retryCount := 0, nextRetryTime := now + config.delay)
          else old(table)[event].(status := Completed)]
    {
      if seen.stage == Initial {
        if Matches(table, event, Processing) {
          log := log + [Scheduling(event, now)];
        }
        ScheduleDelayedStage(event, now + config.delay);
      } else {
        MarkCompleted(event);
      }
    }

    method Finishing(ticket: Ticket, fault: Fault) returns (threw: bool)
      requires Possible(Now(), Finish(ticket, fault))
      modifies this
      ensures Now() == Next(config, old(Now()), Finish(ticket, fault))
      ensures now == old(now) && OtherJobs(old(jobs), jobs, ticket)
      ensures threw == (ticket in jobs) && (threw ==> jobs[ticket] == old(jobs)[ticket].(phase := Failing))
      ensures threw ==> old(jobs)[ticket].phase.ok && fault == AppliedButThrows
      ensures var j := old(jobs)[ticket];
              j.event in old(table) && old(table)[j.event].status == Processing ==>
                j.event in table && table == old(table)[j.event := table[j.event]] &&
                Closes(config, now, j, old(table)[j.event], fault, table[j.event]) &&
                log == if j.phase.ok && fault != NotApplied && j.seen.stage == Initial
                       then old(log) + [Scheduling(j.event, now)] else old(log)
    {
      hide SuccessHandled, FailureHandled;
      var j := jobs[ticket];
      threw := j.phase.ok && fault == AppliedButThrows;
      jobs := if threw then jobs[ticket := j.(phase := Failing)] else jobs - {ticket};
      if j.phase.ok && fault != NotApplied {
        HandleSuccess(j.event, j.seen);
      } else {
        HandleFailure(j.event, j.seen);
      }
    }

    /** The exception handler, when the update took effect and then threw. */
    method Recoiling(ticket: Ticket)
      requires Possible(Now(), Fail(ticket))
      modifies this
      ensures Now() == Next(config, old(Now()), Fail(ticket))
      ensures log == old(log)
      ensures var event := old(jobs)[ticket].event;
              !(event in old(table) && old(table)[event].status == Processing) ==> table == old(table)
      ensures now == old(now) && ticket !in jobs && OtherJobs(old(jobs), jobs, ticket)
    {
      hide FailureHandled;
      var j := jobs[ticket];
      jobs := jobs - {ticket};
      HandleFailure(j.event, j.seen);
    }

    /** What a step of this task leaves is what it leaves in any run. */
    lemma StepKeeps(s: State, s': State, step: Step)
      requires Invariant(config, s) && Possible(s, step) && s' == Next(config, s, step)
      ensures Invariant(config, s') && Forward(s.table, s'.table)
    {
      StepKeepsInvariant(config, s, step);
      StepGoesForward(config, s, step);
    }

    lemma ClosedIsNotHeld(j: Job, row: Row, fault: Fault, row': Row)
      requires j.phase.Invalidated? && Closes(config, now, j, row, fault, row')
      ensures row'.status != Processing
    {
    }

    /** The finishing update and, if that throws late, the exception handler. */
    method Ending(ticket: Ticket, fault: Fault)
      requires Invariant(config, Now()) && Possible(Now(), Finish(ticket, fault))
      requires jobs[ticket].event in table && table[jobs[ticket].event].status == Processing
      modifies this
      ensures Invariant(config, Now()) && Forward(old(table), table)
      ensures now == old(now) && ticket !in jobs && OtherJobs(old(jobs), jobs, ticket)
      ensures var j := old(jobs)[ticket];
              j.event in table && table == old(table)[j.event := table[j.event]] &&
              Closes(config, now, j, old(table)[j.event], fault, table[j.event]) &&
              log == if j.phase.ok && fault != NotApplied && j.seen.stage == Initial
                     then old(log) + [Scheduling(j.event, now)] else old(log)
    {
      hide Invariant, Forward, Next, OtherJobs, Closes;
      ghost var s0 := Now();
      var threw := Finishing(ticket, fault);
      StepKeeps(s0, Now(), Finish(ticket, fault));
      if threw {
        ghost var s1 := Now();
        ClosedIsNotHeld(s0.jobs[ticket], s0.table[s0.jobs[ticket].event], fault, table[s0.jobs[ticket].event]);
        Recoiling(ticket);
        OtherJobsTwice(s0.jobs, s1.jobs, jobs, ticket);
        StepKeeps(s1, Now(), Fail(ticket));
        ForwardTwice(s0.table, s1.table, table);
      }
    }

    /** The claim keeps the run going soundly, and a held row is there to be worked on. */
    method Taking(ticket: Ticket) returns (held: bool)
      requires Invariant(config, Now()) && InPhase(Now(), ticket, Listed)
      modifies this
      ensures Invariant(config, Now()) && Forward(old(table), table)
      ensures now == old(now) && log == old(log) && OtherJobs(old(jobs), jobs, ticket)
      ensures var j := old(jobs)[ticket];
              j.event in old(table) && held == (old(table)[j.event].status == Waiting) &&
              (held ==> ticket in jobs && jobs[ticket] == j.(phase := Held) &&
                        table == old(table)[j.event := old(table)[j.event].(status := Processing, nextRetryTime := now + config.lease)]) &&
              (!held ==> ticket !in jobs && table == old(table))
    {
      ListedIsThere(ticket);
      hide Invariant, Forward, Next, OtherJobs;
      ghost var s0 := Now();
      held := Claiming(ticket);
      StepKeeps(s0, Now(), Claim(ticket));
    }

    /** `processOne` for an event the scan has listed: a row that another worker has taken is
        left alone, any other is claimed, invalidated once, and finished. */
    method ProcessOne(ticket: Ticket, outcome: Outcome)
      requires Invariant(config, Now()) && InPhase(Now(), ticket, Listed)
      modifies this
      ensures Invariant(config, Now()) && Forward(old(table), table)
      ensures now == old(now) && ticket !in jobs && OtherJobs(old(jobs), jobs, ticket)
      ensures WorkedOnce(config, now, old(jobs)[ticket], outcome, old(table), old(log), table, log)
    {
      hide Invariant, Forward, WorkedOnce, Closes, Logged, OtherJobs;
      ghost var j, jobs0, table0 := jobs[ticket], jobs, table;
      var held := Taking(ticket);
      if held {
        ghost var jobs1, table1 := jobs, table;
        WorkOn(ticket, outcome);
        OtherJobsTwice(jobs0, jobs1, jobs, ticket);
        ForwardTwice(table0, table1, table);
        ClaimedAndWorked(j, outcome, table0, old(log), table1, table, log);
      } else {
        TakenByAnother(j, outcome);
      }
    }

    lemma ClaimedAndWorked(j: Job, outcome: Outcome, t: Table, entries: seq<Entry>, held: Table, t': Table, entries': seq<Entry>)
      requires j.event in t && t[j.event].status == Waiting
      requires held == t[j.event := t[j.event].(status := Processing, nextRetryTime := now + config.lease)]
      requires j.event in t' && t' == held[j.event := t'[j.event]]
      requires Closes(config, now, j.(phase := Invalidated(outcome.ok && j.seen.cacheName == "shop")), held[j.event],
                      outcome.fault, t'[j.event])
      requires Logged(entries, j.event, j.seen, outcome, now, entries')
      ensures WorkedOnce(config, now, j, outcome, t, entries, t', entries')
    {
      hide Logged;
      ClosedIsWorked(j, t[j.event], held[j.event], t'[j.event], outcome);
    }

    lemma TakenByAnother(j: Job, outcome: Outcome)
      requires j.event in table && table[j.event].status != Waiting
      ensures WorkedOnce(config, now, j, outcome, table, log, table, log)
    {
    }

    lemma ListedIsThere(ticket: Ticket)
      requires Invariant(config, Now()) && ticket in jobs
      ensures jobs[ticket].event in table
    {
      assert JobSound(config, Now(), ticket);
    }

    /** The invalidation and the finishing update of a worker that holds the row. */
    method WorkOn(ticket: Ticket, outcome: Outcome)
      requires Invariant(config, Now()) && InPhase(Now(), ticket, Held)
      requires jobs[ticket].event in table && table[jobs[ticket].event].status == Processing
      modifies this
      ensures Invariant(config, Now()) && Forward(old(table), table)
      ensures now == old(now) && ticket !in jobs && OtherJobs(old(jobs), jobs, ticket)
      ensures var j := old(jobs)[ticket];
              j.event in table && table == old(table)[j.event := table[j.event]] &&
              Closes(config, now, j.(phase := Invalidated(outcome.ok && j.seen.cacheName == "shop")),
                     old(table)[j.event], outcome.fault, table[j.event]) &&
              Logged(old(log), j.event, j.seen, outcome, now, log)
    {
      hide Invariant, Forward, Next, Closes, OtherJobs;
      ghost var s1 := Now();
      Invalidating(ticket, outcome.ok);
      StepKeeps(s1, Now(), Invalidate(ticket, outcome.ok && s1.jobs[ticket].seen.cacheName == "shop"));
      ghost var s2 := Now();
      Ending(ticket, outcome.fault);
      OtherJobsTwice(s1.jobs, s2.jobs, jobs, ticket);
      ForwardTwice(s1.table, s2.table, table);
    }

    /** A held row that is finished was worked on. */
    lemma ClosedIsWorked(j: Job, row: Row, held: Row, row': Row, outcome: Outcome)
      requires held == row.(status := Processing, nextRetryTime := now + config.lease)
      requires Closes(config, now, j.(phase := Invalidated(outcome.ok && j.seen.cacheName == "shop")), held, outcome.fault, row')
      ensures Worked(config, j.seen, row, outcome, now, row')
    {
    }

    /** The list that a scan works on: the due events as they are now. */
    method ListDue(base: Ticket) returns (ids: seq<EventId>)
      requires Invariant(config, Now()) && forall t | t in jobs :: t < base
      modifies `jobs
      ensures Invariant(config, Now()) && DueFirst(config, now, table, ids)
      ensures forall t :: t in jobs <==> t in old(jobs) || base <= t < base + |ids|
      ensures forall t | t in old(jobs) :: jobs[t] == old(jobs)[t]
      ensures forall i | 0 <= i < |ids| :: ids[i] in table && jobs[base + i] == Job(ids[i], table[ids[i]], Listed, |log|, now)
    {
      hide Invariant;
      ids := FindDue(config.batchSize);
      for i := 0 to |ids|
        invariant Invariant(config, Now())
        invariant forall t :: t in jobs <==> t in old(jobs) || base <= t < base + i
        invariant forall t | t in old(jobs) :: jobs[t] == old(jobs)[t]
        invariant forall k | 0 <= k < i :: jobs[base + k] == Job(ids[k], table[ids[k]], Listed, |log|, now)
      {
        assert ids[i] in ids;
        StepKeepsInvariant(config, Now(), Find(base + i, ids[i]));
        jobs := jobs[base + i := Job(ids[i], table[ids[i]], Listed, |log|, now)];
      }
    }

    /** The loop over the listed events. */
    method ProcessListed(base: Ticket, ids: seq<EventId>, outcomes: nat -> Outcome)
      requires Invariant(config, Now()) && Increasing(ids)
      requires forall i | 0 <= i < |ids| ::
        base + i in jobs && ids[i] in table && jobs[base + i] == Job(ids[i], table[ids[i]], Listed, |log|, now)
      requires forall i | 0 <= i < |ids| :: table[ids[i]].status == Waiting
      modifies this
      ensures Invariant(config, Now()) && Forward(old(table), table) && now == old(now)
      ensures forall t :: t in jobs <==> t in old(jobs) && !(base <= t < base + |ids|)
      ensures forall t | t in jobs :: jobs[t] == old(jobs)[t]
      ensures RowsWorked(config, now, old(table), ids, outcomes, |ids|, table)
      ensures old(log) <= log && TriedEach(now, old(table), ids, outcomes, |ids|, log, |old(log)|)
    {
      hide Invariant, Forward, Worked, Logged, TriedEach, RowsWorked;
      NothingYet(table, ids, outcomes, log);
      ForwardItself(table);
      for i := 0 to |ids|
        invariant Invariant(config, Now()) && Forward(old(table), table) && now == old(now)
        invariant forall t :: t in jobs <==> t in old(jobs) && !(base <= t < base + i)
        invariant forall t | t in jobs :: jobs[t] == old(jobs)[t]
        invariant RowsWorked(config, now, old(table), ids, outcomes, i, table)
        invariant old(log) <= log && TriedEach(now, old(table), ids, outcomes, i, log, |old(log)|)
      {
        ghost var before, log0 := table, log;
        NotYetWorked(old(table), ids, outcomes, i, before);
        ProcessOne(base + i, outcomes(i));
        ForwardTwice(old(table), before, table);
        OneMoreWorked(old(table), ids, outcomes, i, before, table);
        OneMoreTried(old(table), ids, outcomes, i, log0, log, |old(log)|);
      }
    }

    lemma NothingYet(listed: Table, ids: seq<EventId>, outcomes: nat -> Outcome, entries: seq<Entry>)
      requires forall i | 0 <= i < |ids| :: ids[i] in listed
      ensures RowsWorked(config, now, listed, ids, outcomes, 0, listed) && TriedEach(now, listed, ids, outcomes, 0, entries, |entries|)
    {
    }

    lemma NotYetWorked(listed: Table, ids: seq<EventId>, outcomes: nat -> Outcome, i: nat, t: Table)
      requires i < |ids| && Increasing(ids) && RowsWorked(config, now, listed, ids, outcomes, i, t)
      ensures ids[i] in t && ids[i] in listed && t[ids[i]] == listed[ids[i]]
    {
      assert ids[i] in ids && ids[i] !in ids[..i];
    }

    lemma OneMoreWorked(listed: Table, ids: seq<EventId>, outcomes: nat -> Outcome, i: nat, t: Table, t': Table)
      requires i < |ids| && Increasing(ids) && RowsWorked(config, now, listed, ids, outcomes, i, t) && ids[i] in t
      requires ids[i] in t' && t' == t[ids[i] := t'[ids[i]]]
      requires ids[i] in listed && Worked(config, listed[ids[i]], listed[ids[i]], outcomes(i), now, t'[ids[i]])
      ensures RowsWorked(config, now, listed, ids, outcomes, i + 1, t')
    {
      hide Worked;
      assert ids[..i + 1] == ids[..i] + [ids[i]];
      forall k | 0 <= k < i + 1 ensures Worked(config, listed[ids[k]], listed[ids[k]], outcomes(k), now, t'[ids[k]]) {
        assert k < i ==> ids[k] < ids[i];
      }
    }

    lemma OneMoreTried(listed: Table, ids: seq<EventId>, outcomes: nat -> Outcome, i: nat, log0: seq<Entry>, log1: seq<Entry>, from: nat)
      requires i < |ids| && Increasing(ids) && TriedEach(now, listed, ids, outcomes, i, log0, from) && ids[i] in listed
      requires Logged(log0, ids[i], listed[ids[i]], outcomes(i), now, log1)
      ensures TriedEach(now, listed, ids, outcomes, i + 1, log1, from) && log0 <= log1
    {
      LoggedAbout(log0, ids[i], listed[ids[i]], outcomes(i), now, log1);
      hide Succeeds, Logged, TriedOnce;
      assert ids[..i + 1] == ids[..i] + [ids[i]];
      assert ids[i] !in ids[..i];
      forall k | 0 <= k < i + 1
        ensures TriedOnce(log1, from, Invalidation(ids[k], listed[ids[k]].stage, Succeeds(listed[ids[k]], outcomes(k)), now))
      {
        if k < i {
          assert ids[k] < ids[i];
          TriedStays(log0, log1, from, Invalidation(ids[k], listed[ids[k]].stage, Succeeds(listed[ids[k]], outcomes(k)), now), ids[i]);
        } else {
          TriedNow(log0, log1, from, ids[i], listed[ids[i]], outcomes(i), now);
        }
      }
      forall k | from <= k < |log1| ensures log1[k].event in ids[..i + 1] {
        assert k < |log0| ==> log1[k] == log0[k];
      }
    }

    /** `processDueEvents`: expired claims are recovered, and of the events that are due then
        the first ones, up to the batch size, are attempted once each. */
    method ProcessDueEvents(base: Ticket, outcomes: nat -> Outcome) returns (ids: seq<EventId>)
      requires Invariant(config, Now()) && forall t | t in jobs :: t < base
      modifies this
      ensures Invariant(config, Now()) && Forward(old(table), table) && jobs == old(jobs) && now == old(now)
      ensures DueFirst(config, now, Recovered(old(table), now), ids) && old(log) <= log
      ensures RowsWorked(config, now, Recovered(old(table), now), ids, outcomes, |ids|, table)
      ensures TriedEach(now, Recovered(old(table), now), ids, outcomes, |ids|, log, |old(log)|)
    {
      hide Invariant, Forward, RowsWorked, TriedEach;
      StepKeepsInvariant(config, Now(), Recover);
      StepGoesForward(config, Now(), Recover);
      RecoverExpiredClaims();
      ghost var recovered := table;
      ids := ListDue(base);
      assert forall i | 0 <= i < |ids| :: ids[i] in ids;
      hide DueFirst;
      ProcessListed(base, ids, outcomes);
      ForwardTwice(old(table), recovered, table);
    }

    /** The scheduler: scans repeated, each at some time after the event is due. If a scan
        reaches every due event, twice the allowed retries are enough scans to close one. */
    method RepeatScans(id: EventId, lates: seq<Time>, outcomes: nat -> nat -> Outcome)
      requires Invariant(config, Now()) && jobs == map[] && config.maxRetries >= 1
      requires id in table && table[id] == NewRow(table[id].key, table[id].nextRetryTime)
      requires |table| <= config.batchSize && |lates| >= 2 * config.maxRetries
      modifies this
      ensures Invariant(config, Now()) && id in table && !Open(table[id])
    {
      hide Invariant, Forward, RowsWorked, TriedEach, DueFirst;
      for i := 0 to |lates|
        invariant Invariant(config, Now()) && jobs == map[] && |table| <= config.batchSize && id in table
        invariant Open(table[id]) ==> table[id].status == Waiting && table[id].retryCount < config.maxRetries
        invariant Open(table[id]) ==> Remaining(config, table[id]) <= 2 * config.maxRetries - i
      {
        var time := TimeFor(table[id], now, Try(true, lates[i]));
        StepKeepsInvariant(config, Now(), Tick(time));
        now := time;
        ghost var before := table;
        var ids := ProcessDueEvents(0, outcomes(i));
        ScanReaches(before, id, ids, outcomes(i));
      }
    }

    lemma ScanReaches(before: Table, id: EventId, ids: seq<EventId>, outcomes: nat -> Outcome)
      requires id in before && |before| <= config.batchSize
      requires Open(before[id]) ==> Due(before[id], now) && before[id].retryCount < config.maxRetries
      requires DueFirst(config, now, Recovered(before, now), ids) && RowsWorked(config, now, Recovered(before, now), ids, outcomes, |ids|, table)
      ensures |table| == |before| && id in table
      ensures !Open(before[id]) ==> !Open(table[id])
      ensures Open(before[id]) && Open(table[id]) ==>
        table[id].status == Waiting && table[id].retryCount < config.maxRetries &&
        Remaining(config, table[id]) < Remaining(config, before[id])
    {
      var r := Recovered(before, now);
      assert r.Keys == before.Keys && r[id] == before[id];
      SameSize(before, table);
      assert ids[..|ids|] == ids;
      if Open(before[id]) {
        AllReached(r, ids, id);
        var k :| 0 <= k < |ids| && ids[k] == id;
        assert Worked(config, r[id], r[id], outcomes(k), now, table[id]);
      } else {
        assert id !in ids;
      }
    }

    lemma AllReached(t: Table, ids: seq<EventId>, id: EventId)
      requires |t.Keys| <= config.batchSize && DueFirst(config, now, t, ids) && id in t && Due(t[id], now)
      ensures id in ids
    {
      if id !in ids {
        Crowded(t.Keys, ids, id);
      }
    }
  }

  lemma SameSize(t: Table, t': Table)
    requires t.Keys == t'.Keys
    ensures |t| == |t'| == |t.Keys|
  {
    assert |t.Keys| == |t| && |t'.Keys| == |t'|;
  }

  lemma {:induction false} Crowded(keys: set<EventId>, ids: seq<EventId>, id: EventId)
    requires (forall i | i in ids :: i in keys) && Increasing(ids) && id in keys && id !in ids
    ensures |ids| < |keys|
    decreases |ids|
  {
    if ids != [] {
      var last := ids[|ids| - 1];
      assert last in ids;
      forall i | i in ids[..|ids| - 1] ensures i in keys - {last} {
        assert i in ids;
      }
      Crowded(keys - {last}, ids[..|ids| - 1], id);
    }
  }

  lemma TriedStays(log: seq<Entry>, log': seq<Entry>, from: nat, tried: Entry, other: EventId)
    requires TriedOnce(log, from, tried) && from <= |log| && log <= log' && tried.event != other && tried.Invalidation?
    requires forall k | |log| <= k < |log'| :: log'[k].event == other
    ensures TriedOnce(log', from, tried)
  {
    var k :| from <= k < |log| && log[k] == tried &&
      forall m | from <= m < |log| && log[m].Invalidation? && log[m].event == tried.event :: m == k;
    assert log'[k] == tried;
    forall m | from <= m < |log'| && log'[m].Invalidation? && log'[m].event == tried.event ensures m == k {
      assert m < |log| && log[m] == log'[m];
    }
  }

  lemma LoggedAbout(log: seq<Entry>, event: EventId, seen: Row, outcome: Outcome, now: Time, log': seq<Entry>)
    requires Logged(log, event, seen, outcome, now, log')
    ensures log <= log' && forall k | |log| <= k < |log'| :: log'[k].event == event
  {
  }

  lemma TriedNow(log: seq<Entry>, log': seq<Entry>, from: nat, event: EventId, seen: Row, outcome: Outcome, now: Time)
    requires from <= |log| && Logged(log, event, seen, outcome, now, log')
    requires forall k | from <= k < |log| :: log[k].event != event
    ensures TriedOnce(log', from, Invalidation(event, seen.stage, Succeeds(seen, outcome), now))
  {
    var k := |log|;
    assert log'[k] == Invalidation(event, seen.stage, Succeeds(seen, outcome), now);
    assert forall m | from <= m < |log'| && log'[m].Invalidation? && log'[m].event == event :: m == k;
  }

  datatype Option<+T> = None | Some(value: T)

  datatype Answer = Updated | Failed | Threw

  /** `ShopServiceImpl`, as far as it updates shops. */
  class ShopService {
    const outbox: Task
    var shops: map<nat, int>

    constructor (outbox: Task)
      ensures this.outbox == outbox && shops == map[]
    {
      this.outbox, shops := outbox, map[];
    }

    /** `update`, one transaction: the shop's row changes and its invalidation is recorded, or
        neither happens; a missing shop is an exception, not a success. */
    method Update(id: Option<nat>, shop: int, event: EventId, inserts: bool) returns (answer: Answer)
      requires Invariant(outbox.config, outbox.Now()) && event !in outbox.table
      modifies this, outbox
      ensures Invariant(outbox.config, outbox.Now())
      ensures answer == Updated <==> id.Some? && id.value in old(shops) && inserts
      ensures answer == Failed <==> id.None?
      ensures answer == Updated ==> shops == old(shops)[id.value := shop]
      ensures answer == Updated ==> outbox.Now() == Next(outbox.config, old(outbox.Now()), Record(event, id.value))
      ensures answer != Updated ==> shops == old(shops) && outbox.Now() == old(outbox.Now())
    {
      if id.None? {
        return Failed;
      }
      var before := shops;
      if id.value !in shops {
        return Threw;
      }
      shops := shops[id.value := shop];
      var threw := outbox.RecordShopInvalidation(event, id.value, inserts);
      if threw {
        shops := before;  // rollback
        return Threw;
      }
      return Updated;
    }
  }
}
