/** What every run of outbox workers guarantees, however stale their snapshots are. */
module OutboxGuarantees {
  import opened Outbox

  // ------------------------------------------------------------ both deletions

  /** The wait between the two deletions that no worker can shorten. A first failure retries
      only when a second attempt is allowed. */
  function Gap(c: Config): Time {
    Min(c.delay, if c.maxRetries >= 2 then Min(c.lease, Backoff(c, 1)) else c.lease)
  }

  /** In this part of the log a first invalidation succeeded and then the second was
      scheduled, at least the gap before the given time. */
  ghost predicate FirstDone(c: Config, log: seq<Entry>, bound: nat, id: EventId, time: Time) {
    exists i, j | 0 <= i < j < bound <= |log| ::
      log[i].Invalidation? && log[i].event == id && log[i].stage == Initial && log[i].ok &&
      log[j].Scheduling? && log[j].event == id && log[i].at <= log[j].at && log[j].at + Gap(c) <= time
  }

  ghost predicate Succeeded(log: seq<Entry>, from: nat, id: EventId, stage: Stage, time: Time) {
    exists k | from <= k < |log| ::
      log[k].Invalidation? && log[k].event == id && log[k].stage == stage && log[k].ok && log[k].at >= time
  }

  /** A first invalidation succeeded, then the second was scheduled, then, not before the
      gap was over, a second invalidation succeeded. */
  ghost predicate BothDone(c: Config, log: seq<Entry>, id: EventId) {
    exists found: nat, time: Time ::
      FirstDone(c, log, found, id, time) && Succeeded(log, found, id, Delayed, time)
  }

  /** Neither completed nor dead. */
  predicate Open(row: Row) {
    row.status == Waiting || row.status == Processing
  }

  ghost predicate RowSound(c: Config, s: State, id: EventId)
    requires id in s.table
  {
    var row := s.table[id];
    (row.status == Completed ==> BothDone(c, s.log, id)) &&
    (Open(row) && c.maxRetries >= 1 ==> row.retryCount < c.maxRetries) &&
    (Open(row) && row.stage == Delayed ==> FirstDone(c, s.log, |s.log|, id, row.nextRetryTime))
  }

  ghost predicate JobSound(c: Config, s: State, ticket: Ticket)
    requires ticket in s.jobs
  {
    var j := s.jobs[ticket];
    j.event in s.table && j.found <= |s.log| && j.foundAt <= s.now &&
    (c.maxRetries >= 1 ==> j.seen.retryCount < c.maxRetries) &&
    (j.seen.stage == Delayed ==> FirstDone(c, s.log, j.found, j.event, j.foundAt)) &&
    (j.phase == Invalidated(true) ==> Succeeded(s.log, j.found, j.event, j.seen.stage, j.foundAt))
  }

  ghost predicate Invariant(c: Config, s: State) {
    (forall i | 0 <= i < |s.log| :: s.log[i].at <= s.now) &&
    (forall id | id in s.table :: RowSound(c, s, id)) &&
    (forall ticket | ticket in s.jobs :: JobSound(c, s, ticket))
  }

  /** The log only grows, and what it says stays said, also for later times. */
  lemma FirstDoneStays(c: Config, log: seq<Entry>, log': seq<Entry>, bound: nat, bound': nat,
                       id: EventId, time: Time, time': Time)
    requires FirstDone(c, log, bound, id, time) && log <= log' && bound <= bound' <= |log'|
    requires forall j | 0 <= j < |log| && log[j].at + Gap(c) <= time :: log[j].at + Gap(c) <= time'
    ensures FirstDone(c, log', bound', id, time')
  {
    var i, j :| 0 <= i < j < bound <= |log| &&
      log[i].Invalidation? && log[i].event == id && log[i].stage == Initial && log[i].ok &&
      log[j].Scheduling? && log[j].event == id && log[i].at <= log[j].at && log[j].at + Gap(c) <= time;
    assert log'[i] == log[i] && log'[j] == log[j];
  }

  lemma SucceededStays(log: seq<Entry>, log': seq<Entry>, from: nat, id: EventId, stage: Stage, time: Time)
    requires Succeeded(log, from, id, stage, time) && log <= log'
    ensures Succeeded(log', from, id, stage, time)
  {
    var k :| from <= k < |log| &&
      log[k].Invalidation? && log[k].event == id && log[k].stage == stage && log[k].ok && log[k].at >= time;
    assert log'[k] == log[k];
  }

  lemma RowStaysSound(c: Config, s: State, s': State, id: EventId)
    requires id in s.table && RowSound(c, s, id) && id in s'.table && s'.table[id] == s.table[id] && s.log <= s'.log
    ensures RowSound(c, s', id)
  {
    var row := s.table[id];
    if Open(row) && row.stage == Delayed {
      FirstDoneStays(c, s.log, s'.log, |s.log|, |s'.log|, id, row.nextRetryTime, row.nextRetryTime);
    }
    if row.status == Completed {
      var found: nat, time: Time :| FirstDone(c, s.log, found, id, time) && Succeeded(s.log, found, id, Delayed, time);
      FirstDoneStays(c, s.log, s'.log, found, found, id, time, time);
      SucceededStays(s.log, s'.log, found, id, Delayed, time);
    }
  }

  lemma JobStaysSound(c: Config, s: State, s': State, ticket: Ticket)
    requires ticket in s.jobs && JobSound(c, s, ticket) && ticket in s'.jobs && s'.jobs[ticket] == s.jobs[ticket]
    requires s.log <= s'.log && s.now <= s'.now && s.table.Keys <= s'.table.Keys
    ensures JobSound(c, s', ticket)
  {
    var j := s.jobs[ticket];
    if j.seen.stage == Delayed {
      FirstDoneStays(c, s.log, s'.log, j.found, j.found, j.event, j.foundAt, j.foundAt);
    }
    if j.phase == Invalidated(true) {
      SucceededStays(s.log, s'.log, j.found, j.event, j.seen.stage, j.foundAt);
    }
  }

  /** A row in its second stage whose time is set from now on stays sound. */
  lemma RetimedRow(c: Config, s: State, id: EventId, wait: Time)
    requires Invariant(c, s) && id in s.table && Open(s.table[id]) && s.table[id].stage == Delayed && wait >= Gap(c)
    ensures FirstDone(c, s.log, |s.log|, id, s.now + wait)
  {
    assert RowSound(c, s, id);
    FirstDoneStays(c, s.log, s.log, |s.log|, |s.log|, id, s.table[id].nextRetryTime, s.now + wait);
  }

  /** A step that changes at most the row of one event, at most one job, and adds to the log. */
  ghost predicate AboutOne(s: State, s': State, id: EventId, ticket: Ticket) {
    s.log <= s'.log && s.now <= s'.now && s'.table.Keys == s.table.Keys + {id} &&
    (forall e | e in s.table && e != id :: s'.table[e] == s.table[e]) &&
    (forall t | t in s'.jobs && t != ticket :: t in s.jobs && s'.jobs[t] == s.jobs[t])
  }

  lemma Settle(c: Config, s: State, s': State, id: EventId, ticket: Ticket)
    requires Invariant(c, s) && AboutOne(s, s', id, ticket)
    requires RowSound(c, s', id) && (ticket in s'.jobs ==> JobSound(c, s', ticket))
    requires forall i | |s.log| <= i < |s'.log| :: s'.log[i].at <= s'.now
    ensures Invariant(c, s')
  {
    forall e | e in s'.table && e != id ensures RowSound(c, s', e) {
      RowStaysSound(c, s, s', e);
    }
    forall t | t in s'.jobs && t != ticket ensures JobSound(c, s', t) {
      JobStaysSound(c, s, s', t);
    }
    assert forall i | 0 <= i < |s.log| :: s'.log[i] == s.log[i];
  }

  lemma ClockKeeps(c: Config, s: State, time: Time)
    requires Invariant(c, s) && time >= s.now
    ensures Invariant(c, s.(now := time)) && Invariant(c, s.(table := Recovered(s.table, s.now)))
  {
    var later := s.(now := time);
    forall t | t in later.jobs ensures JobSound(c, later, t) {
      assert JobSound(c, s, t);
    }
    forall id | id in later.table ensures RowSound(c, later, id) {
      assert RowSound(c, s, id);
    }
    var recovered := s.(table := Recovered(s.table, s.now));
    forall id | id in recovered.table ensures RowSound(c, recovered, id) {
      assert RowSound(c, s, id);
    }
    forall t | t in recovered.jobs ensures JobSound(c, recovered, t) {
      assert JobSound(c, s, t);
    }
  }

  lemma WorkKeeps(c: Config, s: State, step: Step)
    requires Invariant(c, s) && Possible(s, step) && (step.Find? || step.Claim? || step.Invalidate? || step.Die?)
    ensures Invariant(c, Next(c, s, step))
  {
    var s' := Next(c, s, step);
    var id := if step.Find? then step.id else s.jobs[step.ticket].event;
    if step.Find? {
      assert RowSound(c, s, id);
      if s.table[id].stage == Delayed {
        FirstDoneStays(c, s.log, s.log, |s.log|, |s.log|, id, s.table[id].nextRetryTime, s.now);
      }
    } else {
      assert JobSound(c, s, step.ticket);
    }
    if step.Claim? && Matches(s.table, id, Waiting) && s.table[id].stage == Delayed {
      RetimedRow(c, s, id, c.lease);
    }
    if step.Invalidate? {
      JobInvalidated(c, s, s', step.ticket, step.ok);
    }
    assert RowSound(c, s, id);
    if s'.table[id] == s.table[id] {
      RowStaysSound(c, s, s', id);
    }
    Settle(c, s, s', id, step.ticket);
  }

  lemma JobInvalidated(c: Config, s: State, s': State, ticket: Ticket, ok: bool)
    requires Invariant(c, s) && Possible(s, Invalidate(ticket, ok)) && s' == Next(c, s, Invalidate(ticket, ok))
    ensures JobSound(c, s', ticket)
  {
    var j := s.jobs[ticket];
    assert JobSound(c, s, ticket);
    assert s'.log[|s.log|] == Invalidation(j.event, j.seen.stage, ok, s.now);
    if j.seen.stage == Delayed {
      FirstDoneStays(c, s.log, s'.log, j.found, j.found, j.event, j.foundAt, j.foundAt);
    }
  }

  lemma BackoffAtLeast(c: Config, retryCount: nat)
    requires retryCount >= 1
    ensures Backoff(c, retryCount) >= Backoff(c, 1)
  {
  }

  lemma FailureKeeps(c: Config, s: State, ticket: Ticket)
    requires Invariant(c, s) && ticket in s.jobs
    ensures var j := s.jobs[ticket];
            Invariant(c, s.(jobs := s.jobs - {ticket}, table := FailureHandled(c, s.table, j.event, j.seen, s.now)))
  {
    var j := s.jobs[ticket];
    var s' := s.(jobs := s.jobs - {ticket}, table := FailureHandled(c, s.table, j.event, j.seen, s.now));
    assert JobSound(c, s, ticket) && RowSound(c, s, j.event);
    if Matches(s.table, j.event, Processing) {
      BackoffAtLeast(c, j.seen.retryCount + 1);
      if s.table[j.event].stage == Delayed && j.seen.retryCount + 1 < c.maxRetries {
        RetimedRow(c, s, j.event, Backoff(c, j.seen.retryCount + 1));
      }
    } else {
      RowStaysSound(c, s, s', j.event);
    }
    Settle(c, s, s', j.event, ticket);
  }

  lemma ScheduledRow(c: Config, s: State, s': State, ticket: Ticket)
    requires InPhase(s, ticket, Invalidated(true)) && JobSound(c, s, ticket) && s.jobs[ticket].seen.stage == Initial
    requires s'.log == s.log + [Scheduling(s.jobs[ticket].event, s.now)]
    requires forall i | 0 <= i < |s.log| :: s.log[i].at <= s.now
    ensures FirstDone(c, s'.log, |s'.log|, s.jobs[ticket].event, s.now + c.delay)
  {
    var j := s.jobs[ticket];
    var k :| j.found <= k < |s.log| && s.log[k].Invalidation? && s.log[k].event == j.event &&
      s.log[k].stage == Initial && s.log[k].ok && s.log[k].at >= j.foundAt;
    assert s'.log[k] == s.log[k] && s'.log[|s.log|] == Scheduling(j.event, s.now);
  }

  /** The job of an update that threw. */
  lemma FailingJob(c: Config, s: State, s': State, ticket: Ticket)
    requires ticket in s.jobs && JobSound(c, s, ticket)
    requires ticket in s'.jobs && s'.jobs[ticket] == s.jobs[ticket].(phase := Failing)
    requires s.log <= s'.log && s.now <= s'.now && s.table.Keys <= s'.table.Keys
    ensures JobSound(c, s', ticket)
  {
    var j := s.jobs[ticket];
    if j.seen.stage == Delayed {
      FirstDoneStays(c, s.log, s'.log, j.found, j.found, j.event, j.foundAt, j.foundAt);
    }
  }

  lemma SuccessKeeps(c: Config, s: State, ticket: Ticket, fault: Fault)
    requires Invariant(c, s) && InPhase(s, ticket, Invalidated(true)) && fault != NotApplied
    ensures Invariant(c, Finished(c, s, ticket, fault))
  {
    var j := s.jobs[ticket];
    var s' := Finished(c, s, ticket, fault);
    assert JobSound(c, s, ticket) && RowSound(c, s, j.event);
    if fault == AppliedButThrows {
      FailingJob(c, s, s', ticket);
    }
    if Matches(s.table, j.event, Processing) {
      if j.seen.stage == Initial {
        ScheduledRow(c, s, s', ticket);
        hide FirstDone;
        assert RowSound(c, s', j.event);
      } else {
        assert BothDone(c, s'.log, j.event);
        hide FirstDone, BothDone;
        assert RowSound(c, s', j.event);
      }
    } else {
      RowStaysSound(c, s, s', j.event);
    }
    hide FirstDone, BothDone, Succeeded, RowSound, JobSound, Invariant;
    Settle(c, s, s', j.event, ticket);
  }

  lemma StepKeepsInvariant(c: Config, s: State, step: Step)
    requires Invariant(c, s) && Possible(s, step)
    ensures Invariant(c, Next(c, s, step))
  {
    match step
    case Record(id, shop) =>
      var s' := Next(c, s, step);
      forall e | e in s.table ensures RowSound(c, s', e) {
        RowStaysSound(c, s, s', e);
      }
      forall t | t in s.jobs ensures JobSound(c, s', t) {
        JobStaysSound(c, s, s', t);
      }
    case Tick(time) => ClockKeeps(c, s, time);
    case Recover => ClockKeeps(c, s, s.now);
    case Finish(ticket, fault) =>
      if s.jobs[ticket].phase.ok && fault != NotApplied {
        SuccessKeeps(c, s, ticket, fault);
      } else {
        FailureKeeps(c, s, ticket);
      }
    case Fail(ticket) => FailureKeeps(c, s, ticket);
    case _ => WorkKeeps(c, s, step);
  }

  lemma {:induction false} RunKeepsInvariant(c: Config, s: State, steps: seq<Step>)
    requires Invariant(c, s) && PossibleRun(c, s, steps)
    ensures Invariant(c, After(c, s, steps))
    decreases |steps|
  {
    if steps != [] {
      StepKeepsInvariant(c, s, steps[0]);
      RunKeepsInvariant(c, Next(c, s, steps[0]), steps[1..]);
    }
  }

  /** Whatever workers do, die or repeat: an event that is completed has had a successful
      first invalidation, then the second was scheduled, and then, the gap later or after,
      a second one succeeded. */
  lemma CompletedAfterBoth(c: Config, s: State, steps: seq<Step>, id: EventId)
    requires Empty(s) && PossibleRun(c, s, steps)
    requires Matches(After(c, s, steps).table, id, Completed)
    ensures BothDone(c, After(c, s, steps).log, id)
  {
    RunKeepsInvariant(c, s, steps);
    assert RowSound(c, After(c, s, steps), id);
  }

  /** A row that is neither completed nor dead has retries left. */
  lemma OpenRowsHaveRetries(c: Config, s: State, steps: seq<Step>, id: EventId)
    requires c.maxRetries >= 1 && Empty(s) && PossibleRun(c, s, steps)
    requires id in After(c, s, steps).table && Open(After(c, s, steps).table[id])
    ensures After(c, s, steps).table[id].retryCount < c.maxRetries
  {
    RunKeepsInvariant(c, s, steps);
    assert RowSound(c, After(c, s, steps), id);
  }

  // ------------------------------------------------------------ rows only go forward

  /** Rows stay; a completed or dead row does not change, and no stage goes back. */
  ghost predicate Forward(t: Table, t': Table) {
    forall id | id in t ::
      id in t' && (!Open(t[id]) ==> t'[id] == t[id]) && (t[id].stage == Delayed ==> t'[id].stage == Delayed) &&
      t'[id].cacheName == t[id].cacheName && t'[id].key == t[id].key
  }

  lemma RecordGoesForward(t: Table, id: EventId, row: Row)
    requires id !in t
    ensures Forward(t, t[id := row])
  {
  }

  lemma RecoveryGoesForward(t: Table, now: Time)
    ensures Forward(t, Recovered(t, now))
  {
  }

  lemma ClaimGoesForward(t: Table, id: EventId, leaseDeadline: Time)
    ensures Forward(t, Claimed(t, id, leaseDeadline))
  {
  }

  lemma SuccessGoesForward(c: Config, t: Table, id: EventId, seen: Row, now: Time)
    ensures Forward(t, SuccessHandled(c, t, id, seen, now))
  {
  }

  lemma FailureGoesForward(c: Config, t: Table, id: EventId, seen: Row, now: Time)
    ensures Forward(t, FailureHandled(c, t, id, seen, now))
  {
  }

  lemma FinishGoesForward(c: Config, s: State, ticket: Ticket, fault: Fault)
    requires ticket in s.jobs && s.jobs[ticket].phase.Invalidated?
    ensures Forward(s.table, Finished(c, s, ticket, fault).table)
  {
    var j := s.jobs[ticket];
    SuccessGoesForward(c, s.table, j.event, j.seen, s.now);
    FailureGoesForward(c, s.table, j.event, j.seen, s.now);
    hide Forward, SuccessHandled, FailureHandled;
  }

  lemma StepGoesForward(c: Config, s: State, step: Step)
    requires Possible(s, step)
    ensures Forward(s.table, Next(c, s, step).table)
  {
    hide Forward, Finished, Recovered, Claimed;
    ForwardItself(s.table);
    match step
    case Record(id, shop) => RecordGoesForward(s.table, id, NewRow(shop, s.now));
    case Recover => RecoveryGoesForward(s.table, s.now);
    case Claim(ticket) => ClaimGoesForward(s.table, s.jobs[ticket].event, s.now + c.lease);
    case Finish(ticket, fault) => FinishGoesForward(c, s, ticket, fault);
    case Fail(ticket) => FailureGoesForward(c, s.table, s.jobs[ticket].event, s.jobs[ticket].seen, s.now);
    case _ =>
  }

  lemma ForwardItself(t: Table)
    ensures Forward(t, t)
  {
  }

  lemma ForwardTwice(t: Table, t': Table, t'': Table)
    requires Forward(t, t') && Forward(t', t'')
    ensures Forward(t, t'')
  {
  }

  lemma {:induction false} RowsGoForward(c: Config, s: State, steps: seq<Step>)
    requires PossibleRun(c, s, steps)
    ensures Forward(s.table, After(c, s, steps).table)
    decreases |steps|
  {
    if steps != [] {
      StepGoesForward(c, s, steps[0]);
      RowsGoForward(c, Next(c, s, steps[0]), steps[1..]);
      ForwardTwice(s.table, Next(c, s, steps[0]).table, After(c, s, steps).table);
    }
  }

  // ------------------------------------------------------------ one fresh worker

  /** One undisturbed attempt: the row is claimed as it is, invalidation succeeds or not, and
      the row is finished. */
  function Attempt(c: Config, row: Row, ok: bool, now: Time): Row {
    var t := Claimed(map[0 := row], 0, now + c.lease);
    (if ok then SuccessHandled(c, t, 0, row, now) else FailureHandled(c, t, 0, row, now))[0]
  }

  /** One worker waits for this time and works on the event. */
  function Visit(ticket: Ticket, id: EventId, ok: bool, time: Time): seq<Step> {
    [Tick(time)] + [Find(ticket, id), Claim(ticket), Invalidate(ticket, ok), Finish(ticket, NoFault)]
  }

  /** An undisturbed attempt is what the steps of one worker make of the row. */
  lemma AttemptIsSteps(c: Config, s: State, ticket: Ticket, id: EventId, ok: bool)
    requires id in s.table && Due(s.table[id], s.now) && ticket !in s.jobs && (ok ==> s.table[id].cacheName == "shop")
    ensures var steps := [Find(ticket, id), Claim(ticket), Invalidate(ticket, ok), Finish(ticket, NoFault)];
            PossibleRun(c, s, steps) &&
            var end := After(c, s, steps);
            end.table == s.table[id := Attempt(c, s.table[id], ok, s.now)] && end.jobs == s.jobs && end.now == s.now
  {
    var s1 := Next(c, s, Find(ticket, id));
    var s2 := Next(c, s1, Claim(ticket));
    var s3 := Next(c, s2, Invalidate(ticket, ok));
    AttemptStates(c, s, ticket, id, ok);
    var s4 := Next(c, s3, Finish(ticket, NoFault));
    var steps := [Find(ticket, id), Claim(ticket), Invalidate(ticket, ok), Finish(ticket, NoFault)];
    hide Next, Possible, Attempt;
    FourSteps(c, s, s1, s2, s3, s4, steps, []);
    assert steps + [] == steps;
  }

  lemma AttemptStates(c: Config, s: State, ticket: Ticket, id: EventId, ok: bool)
    requires id in s.table && Due(s.table[id], s.now) && ticket !in s.jobs && (ok ==> s.table[id].cacheName == "shop")
    ensures Possible(s, Find(ticket, id))
    ensures var s1 := Next(c, s, Find(ticket, id));
            Possible(s1, Claim(ticket)) &&
            var s2 := Next(c, s1, Claim(ticket));
            Possible(s2, Invalidate(ticket, ok)) &&
            var s3 := Next(c, s2, Invalidate(ticket, ok));
            Possible(s3, Finish(ticket, NoFault)) &&
            var s4 := Next(c, s3, Finish(ticket, NoFault));
            s4.table == s.table[id := Attempt(c, s.table[id], ok, s.now)] && s4.jobs == s.jobs && s4.now == s.now
  {
    var s1 := Next(c, s, Find(ticket, id));
    var s2 := Next(c, s1, Claim(ticket));
    var s3 := Next(c, s2, Invalidate(ticket, ok));
    WorkedRow(c, s, s3, ticket, id, ok);
    hide SuccessHandled, FailureHandled, Attempt, Backoff;
    assert Next(c, s3, Finish(ticket, NoFault)).jobs == s.jobs;
  }

  lemma WorkedRow(c: Config, s: State, s3: State, ticket: Ticket, id: EventId, ok: bool)
    requires id in s.table && s.table[id].status == Waiting && s3.now == s.now
    requires s3.table == Claimed(s.table, id, s.now + c.lease)
    requires ticket in s3.jobs && s3.jobs[ticket].phase == Invalidated(ok) && s3.jobs[ticket].event == id &&
             s3.jobs[ticket].seen == s.table[id]
    ensures Finished(c, s3, ticket, NoFault).table == s.table[id := Attempt(c, s.table[id], ok, s.now)]
  {
  }

  lemma OneStep(c: Config, s: State, step: Step, rest: seq<Step>)
    requires Possible(s, step) && PossibleRun(c, Next(c, s, step), rest)
    ensures PossibleRun(c, s, [step] + rest) && After(c, s, [step] + rest) == After(c, Next(c, s, step), rest)
  {
    assert ([step] + rest)[1..] == rest;
  }

  lemma FourSteps(c: Config, s: State, s1: State, s2: State, s3: State, s4: State, steps: seq<Step>, rest: seq<Step>)
    requires |steps| == 4 && Possible(s, steps[0]) && s1 == Next(c, s, steps[0])
    requires Possible(s1, steps[1]) && s2 == Next(c, s1, steps[1])
    requires Possible(s2, steps[2]) && s3 == Next(c, s2, steps[2])
    requires Possible(s3, steps[3]) && s4 == Next(c, s3, steps[3]) && PossibleRun(c, s4, rest)
    ensures PossibleRun(c, s, steps + rest) && After(c, s, steps + rest) == After(c, s4, rest)
  {
    OneStep(c, s3, steps[3], rest);
    OneStep(c, s2, steps[2], [steps[3]] + rest);
    OneStep(c, s1, steps[1], [steps[2]] + ([steps[3]] + rest));
    OneStep(c, s, steps[0], [steps[1]] + ([steps[2]] + ([steps[3]] + rest)));
    assert steps + rest == [steps[0]] + ([steps[1]] + ([steps[2]] + ([steps[3]] + rest)));
  }

  /** A visit at a time at which the row is due. */
  lemma VisitIsAttempt(c: Config, s: State, ticket: Ticket, id: EventId, ok: bool, time: Time)
    requires id in s.table && Due(s.table[id], time) && time >= s.now && ticket !in s.jobs && s.table[id].cacheName == "shop"
    ensures PossibleRun(c, s, Visit(ticket, id, ok, time))
    ensures var end := After(c, s, Visit(ticket, id, ok, time));
            end.table == s.table[id := Attempt(c, s.table[id], ok, time)] && end.jobs == s.jobs && end.now == time
  {
    hide PossibleRun, After, Attempt;
    AttemptIsSteps(c, s.(now := time), ticket, id, ok);
    OneStep(c, s, Tick(time), [Find(ticket, id), Claim(ticket), Invalidate(ticket, ok), Finish(ticket, NoFault)]);
  }

  /** What becomes of a visit: whether the invalidation succeeds, and how late the worker is. */
  datatype Try = Try(ok: bool, late: Time)

  function TimeFor(row: Row, now: Time, outcome: Try): Time {
    (if now < row.nextRetryTime then row.nextRetryTime else now) + outcome.late
  }

  /** Attempts at a row, each as soon as it is due or later, until it is closed. */
  function Attempts(c: Config, row: Row, now: Time, outcomes: seq<Try>): Row
    decreases |outcomes|
  {
    if outcomes == [] || !Open(row) then row
    else
      var time := TimeFor(row, now, outcomes[0]);
      Attempts(c, Attempt(c, row, outcomes[0].ok, time), time, outcomes[1..])
  }

  /** The steps of the one worker that makes them. */
  function Visits(c: Config, row: Row, now: Time, ticket: Ticket, id: EventId, outcomes: seq<Try>): seq<Step>
    decreases |outcomes|
  {
    if outcomes == [] || !Open(row) then []
    else
      var time := TimeFor(row, now, outcomes[0]);
      Visit(ticket, id, outcomes[0].ok, time)
        + Visits(c, Attempt(c, row, outcomes[0].ok, time), time, ticket, id, outcomes[1..])
  }

  lemma AttemptLeaves(c: Config, row: Row, ok: bool, time: Time)
    requires row.status == Waiting
    ensures var next := Attempt(c, row, ok, time);
            next.cacheName == row.cacheName && (next.status == Waiting || !Open(next))
  {
  }

  lemma {:induction false} VisitsRun(c: Config, s: State, ticket: Ticket, id: EventId, outcomes: seq<Try>)
    requires id in s.table && ticket !in s.jobs && s.table[id].cacheName == "shop"
    requires s.table[id].status == Waiting || !Open(s.table[id])
    ensures var steps := Visits(c, s.table[id], s.now, ticket, id, outcomes);
            PossibleRun(c, s, steps) && id in After(c, s, steps).table &&
            After(c, s, steps).table[id] == Attempts(c, s.table[id], s.now, outcomes)
    decreases |outcomes|
  {
    hide Attempt, Visit;
    var row := s.table[id];
    if outcomes != [] && Open(row) {
      var time := TimeFor(row, s.now, outcomes[0]);
      var first := Visit(ticket, id, outcomes[0].ok, time);
      VisitIsAttempt(c, s, ticket, id, outcomes[0].ok, time);
      AttemptLeaves(c, row, outcomes[0].ok, time);
      var s1 := After(c, s, first);
      VisitsRun(c, s1, ticket, id, outcomes[1..]);
      RunFrom(c, s, first, Visits(c, s1.table[id], s1.now, ticket, id, outcomes[1..]));
    }
  }

  /** Attempts an open row can still take. */
  function Remaining(c: Config, row: Row): int {
    if !Open(row) then 0
    else if row.stage == Initial then 2 * c.maxRetries - row.retryCount
    else c.maxRetries - row.retryCount
  }

  lemma {:induction false} AttemptsRunOut(c: Config, row: Row, now: Time, outcomes: seq<Try>)
    requires (row.status == Waiting || !Open(row)) && row.retryCount < c.maxRetries && |outcomes| >= Remaining(c, row)
    ensures !Open(Attempts(c, row, now, outcomes))
    decreases |outcomes|
  {
    if Open(row) {
      var time := TimeFor(row, now, outcomes[0]);
      var next := Attempt(c, row, outcomes[0].ok, time);
      assert Remaining(c, next) < Remaining(c, row);
      if Open(next) {
        AttemptsRunOut(c, next, time, outcomes[1..]);
      }
    }
  }

  /** A new event at which one fresh worker works, undisturbed. */
  predicate FreshWork(s: State, ticket: Ticket, id: EventId, shop: nat, at: Time) {
    id in s.table && s.table[id] == NewRow(shop, at) && ticket !in s.jobs
  }

  /** A fresh worker that nobody disturbs completes an event or gives it up within twice the
      allowed attempts, whichever of them succeed and however late they come. */
  lemma EventEnds(c: Config, s: State, ticket: Ticket, id: EventId, shop: nat, at: Time, outcomes: seq<Try>)
    requires FreshWork(s, ticket, id, shop, at) && c.maxRetries >= 1 && |outcomes| >= 2 * c.maxRetries
    ensures var steps := Visits(c, s.table[id], s.now, ticket, id, outcomes);
            PossibleRun(c, s, steps) && id in After(c, s, steps).table && !Open(After(c, s, steps).table[id])
  {
    AttemptsRunOut(c, s.table[id], s.now, outcomes);
    VisitsRun(c, s, ticket, id, outcomes);
  }

  function Fails(n: nat): (r: seq<Try>)
    ensures |r| == n
  {
    seq(n, _ => Try(false, 0))
  }

  lemma {:induction false} FailsKeepOpen(c: Config, row: Row, now: Time, n: nat, rest: seq<Try>)
    returns (last: Row, time: Time)
    requires row.status == Waiting && row.retryCount + n < c.maxRetries
    ensures Attempts(c, row, now, Fails(n) + rest) == Attempts(c, last, time, rest)
    ensures last.status == Waiting && last.stage == row.stage && last.retryCount == row.retryCount + n
    decreases n
  {
    var outcomes := Fails(n) + rest;
    if n > 0 {
      assert outcomes[1..] == Fails(n - 1) + rest;
      var next := TimeFor(row, now, outcomes[0]);
      last, time := FailsKeepOpen(c, Attempt(c, row, false, next), next, n - 1, rest);
    } else {
      assert outcomes == rest;
      last, time := row, now;
    }
  }

  /** All but the last attempt of each stage fail. */
  function Unlucky(n: nat): seq<Try> {
    Fails(n) + ([Try(true, 0)] + Fails(n))
  }

  lemma UnluckyStaysOpen(c: Config, row: Row, now: Time)
    requires c.maxRetries >= 1 && row.status == Waiting && row.stage == Initial && row.retryCount == 0
    ensures Open(Attempts(c, row, now, Unlucky(c.maxRetries - 1)))
  {
    var n, fails := c.maxRetries - 1, Fails(c.maxRetries - 1);
    var rest := [Try(true, 0)] + fails;
    var last, time := FailsKeepOpen(c, row, now, n, rest);
    var later := TimeFor(last, time, rest[0]);
    var second := Attempt(c, last, true, later);
    assert rest[1..] == fails;
    assert Attempts(c, last, time, rest) == Attempts(c, second, later, fails);
    var end, _ := FailsKeepOpen(c, second, later, n, []);
    assert fails + [] == fails;
  }

  /** One attempt less is not enough in general. */
  lemma EventMayNeedThatMany(c: Config, s: State, ticket: Ticket, id: EventId, shop: nat, at: Time)
    requires FreshWork(s, ticket, id, shop, at) && c.maxRetries >= 1
    ensures |Unlucky(c.maxRetries - 1)| == 2 * c.maxRetries - 1
    ensures var steps := Visits(c, s.table[id], s.now, ticket, id, Unlucky(c.maxRetries - 1));
            PossibleRun(c, s, steps) && id in After(c, s, steps).table && Open(After(c, s, steps).table[id])
  {
    UnluckyStaysOpen(c, s.table[id], s.now);
    VisitsRun(c, s, ticket, id, Unlucky(c.maxRetries - 1));
  }

  // ------------------------------------------------------------ when the delay holds

  /** The double delete as configured: the second invalidation at least the delay after it
      was scheduled. */
  ghost predicate DelayKept(c: Config, log: seq<Entry>, id: EventId) {
    exists i, j, k | 0 <= i < j < k < |log| ::
      log[i].Invalidation? && log[i].event == id && log[i].stage == Initial && log[i].ok &&
      log[j].Scheduling? && log[j].event == id &&
      log[k].Invalidation? && log[k].event == id && log[k].stage == Delayed && log[k].ok &&
      log[j].at + c.delay <= log[k].at
  }

  ghost predicate AlwaysKeepsDelay(c: Config) {
    forall s: State, steps: seq<Step>, id: EventId |
      Empty(s) && PossibleRun(c, s, steps) && Matches(After(c, s, steps).table, id, Completed)
    :: DelayKept(c, After(c, s, steps).log, id)
  }

  lemma FirstOf(c: Config, log: seq<Entry>, bound: nat, id: EventId, time: Time) returns (i: nat, j: nat)
    requires FirstDone(c, log, bound, id, time)
    ensures i < j < bound <= |log| && log[i].Invalidation? && log[i].event == id && log[i].stage == Initial && log[i].ok
    ensures log[j].Scheduling? && log[j].event == id && log[j].at + Gap(c) <= time
  {
    i, j :| 0 <= i < j < bound <= |log| &&
      log[i].Invalidation? && log[i].event == id && log[i].stage == Initial && log[i].ok &&
      log[j].Scheduling? && log[j].event == id && log[i].at <= log[j].at && log[j].at + Gap(c) <= time;
  }

  lemma SecondOf(log: seq<Entry>, from: nat, id: EventId, time: Time) returns (k: nat)
    requires Succeeded(log, from, id, Delayed, time)
    ensures from <= k < |log| && log[k].Invalidation? && log[k].event == id && log[k].stage == Delayed && log[k].ok
    ensures log[k].at >= time
  {
    k :| from <= k < |log| &&
      log[k].Invalidation? && log[k].event == id && log[k].stage == Delayed && log[k].ok && log[k].at >= time;
  }

  lemma BothDoneKeepsDelay(c: Config, log: seq<Entry>, id: EventId)
    requires BothDone(c, log, id) && Gap(c) == c.delay
    ensures DelayKept(c, log, id)
  {
    hide FirstDone, Succeeded, Gap;
    var found: nat, time: Time :| FirstDone(c, log, found, id, time) && Succeeded(log, found, id, Delayed, time);
    var i, j := FirstOf(c, log, found, id, time);
    var k := SecondOf(log, found, id, time);
    assert log[j].at + c.delay <= log[k].at;
  }

  /** A log with one scheduling and a later success that is too early. */
  lemma EarlyBreaksDelay(c: Config, log: seq<Entry>, id: EventId, start: Time, early: Time)
    requires forall j | 0 <= j < |log| && log[j].Scheduling? :: log[j].at == start
    requires forall k | 0 <= k < |log| && log[k].Invalidation? && log[k].stage == Delayed :: log[k].at == early
    requires early < start + c.delay
    ensures !DelayKept(c, log, id)
  {
  }

  lemma {:induction false} RunFrom(c: Config, s: State, steps: seq<Step>, rest: seq<Step>)
    requires PossibleRun(c, s, steps) && PossibleRun(c, After(c, s, steps), rest)
    ensures PossibleRun(c, s, steps + rest) && After(c, s, steps + rest) == After(c, After(c, s, steps), rest)
    decreases |steps|
  {
    if steps == [] {
      assert steps + rest == rest;
    } else {
      RunFrom(c, Next(c, s, steps[0]), steps[1..], rest);
      assert (steps + rest)[1..] == steps[1..] + rest;
    }
  }

  /** Two workers have listed the new event; the first has scheduled its second stage. */
  function Scheduled(id: EventId): seq<Step> {
    [Record(id, 0), Find(0, id), Find(1, id), Claim(0)] + [Invalidate(0, true), Finish(0, NoFault), Tick(0), Claim(1)]
  }

  /** The second worker holds the event, which it saw in its first stage. */
  ghost predicate HeldByStale(c: Config, s: State, id: EventId) {
    s.now == 0 && s.jobs.Keys == {1} && id in s.table &&
    s.jobs[1].event == id && s.jobs[1].seen == NewRow(0, 0) && s.jobs[1].phase == Held &&
    s.table[id] == NewRow(0, 0).(stage := Delayed, status := Processing, nextRetryTime := c.lease) &&
    s.log == [Invalidation(id, Initial, true, 0), Scheduling(id, 0)]
  }

  const START := State(map[], map[], 0, [])

  /** Both workers have listed the event; the first holds it. */
  ghost predicate BothListed(c: Config, s: State, id: EventId) {
    s.now == 0 && s.log == [] && s.jobs.Keys == {0, 1} && s.table == map[id := NewRow(0, 0).(status := Processing, nextRetryTime := c.lease)] &&
    (forall w | w in s.jobs :: s.jobs[w].event == id && s.jobs[w].seen == NewRow(0, 0) && s.jobs[w].found == 0 && s.jobs[w].foundAt == 0) &&
    s.jobs[0].phase == Held && s.jobs[1].phase == Listed
  }

  lemma WorkersList(c: Config, id: EventId)
    ensures PossibleRun(c, START, Scheduled(id)[..4]) && BothListed(c, After(c, START, Scheduled(id)[..4]), id)
  {
    var steps := [Record(id, 0), Find(0, id), Find(1, id), Claim(0)];
    assert Scheduled(id)[..4] == steps;
    var s1 := Next(c, START, steps[0]);
    var s2 := Next(c, s1, steps[1]);
    var s3 := Next(c, s2, steps[2]);
    var s4 := Next(c, s3, steps[3]);
    FourSteps(c, START, s1, s2, s3, s4, steps, []);
    assert steps + [] == steps;
  }

  lemma OtherClaims(c: Config, s: State, id: EventId)
    requires BothListed(c, s, id)
    ensures PossibleRun(c, s, Scheduled(id)[4..]) && HeldByStale(c, After(c, s, Scheduled(id)[4..]), id)
  {
    var steps := [Invalidate(0, true), Finish(0, NoFault), Tick(0), Claim(1)];
    assert Scheduled(id)[4..] == steps;
    var s1 := Next(c, s, steps[0]);
    var s2 := Next(c, s1, steps[1]);
    var s3 := Next(c, s2, steps[2]);
    var s4 := Next(c, s3, steps[3]);
    FourSteps(c, s, s1, s2, s3, s4, steps, []);
    assert steps + [] == steps;
  }

  lemma StaleWorkerHolds(c: Config, id: EventId)
    ensures PossibleRun(c, START, Scheduled(id)) && HeldByStale(c, After(c, START, Scheduled(id)), id)
  {
    hide PossibleRun, After, BothListed, HeldByStale;
    WorkersList(c, id);
    OtherClaims(c, After(c, START, Scheduled(id)[..4]), id);
    RunFrom(c, START, Scheduled(id)[..4], Scheduled(id)[4..]);
    assert Scheduled(id)[..4] + Scheduled(id)[4..] == Scheduled(id);
  }

  /** From there the event can wait for its second stage only until `early`. */
  ghost predicate Early(s: State, id: EventId, early: Time) {
    s.now == early && s.jobs == map[] && id in s.table && s.table[id].stage == Delayed && Due(s.table[id], early) &&
    s.table[id].cacheName == "shop" &&
    (forall j | 0 <= j < |s.log| && s.log[j].Scheduling? :: s.log[j].at == 0) &&
    (forall k | 0 <= k < |s.log| && s.log[k].Invalidation? :: s.log[k].stage == Initial)
  }

  /** The stale worker fails and sets its own retry time. */
  lemma FailsEarly(c: Config, s: State, id: EventId)
    requires HeldByStale(c, s, id) && c.maxRetries >= 2
    ensures var steps := [Invalidate(1, false), Finish(1, NoFault), Tick(Backoff(c, 1)), Tick(Backoff(c, 1))];
            PossibleRun(c, s, steps) && Early(After(c, s, steps), id, Backoff(c, 1))
  {
    var steps := [Invalidate(1, false), Finish(1, NoFault), Tick(Backoff(c, 1)), Tick(Backoff(c, 1))];
    var s1 := Next(c, s, steps[0]);
    var s2 := Next(c, s1, steps[1]);
    var s3 := Next(c, s2, steps[2]);
    var s4 := Next(c, s3, steps[3]);
    FourSteps(c, s, s1, s2, s3, s4, steps, []);
    assert steps + [] == steps;
    assert s4.log == s.log + [Invalidation(id, Initial, false, 0)];
  }

  /** The stale worker dies, and its lease expires. */
  lemma DiesEarly(c: Config, s: State, id: EventId)
    requires HeldByStale(c, s, id)
    ensures var steps := [Die(1), Tick(c.lease), Recover, Tick(c.lease)];
            PossibleRun(c, s, steps) && Early(After(c, s, steps), id, c.lease)
  {
    var steps := [Die(1), Tick(c.lease), Recover, Tick(c.lease)];
    var s1 := Next(c, s, steps[0]);
    var s2 := Next(c, s1, steps[1]);
    var s3 := Next(c, s2, steps[2]);
    var s4 := Next(c, s3, steps[3]);
    FourSteps(c, s, s1, s2, s3, s4, steps, []);
    assert steps + [] == steps;
  }

  /** A fresh worker then completes the event, too early. */
  lemma CompletesEarly(c: Config, s: State, id: EventId, early: Time)
    requires Early(s, id, early) && early < c.delay
    ensures var steps := [Find(0, id), Claim(0), Invalidate(0, true), Finish(0, NoFault)];
            PossibleRun(c, s, steps) && Matches(After(c, s, steps).table, id, Completed) &&
            !DelayKept(c, After(c, s, steps).log, id)
  {
    var steps := [Find(0, id), Claim(0), Invalidate(0, true), Finish(0, NoFault)];
    var s1 := Next(c, s, steps[0]);
    var s2 := Next(c, s1, steps[1]);
    var s3 := Next(c, s2, steps[2]);
    var s4 := Next(c, s3, steps[3]);
    FourSteps(c, s, s1, s2, s3, s4, steps, []);
    assert steps + [] == steps;
    assert s4.log == s.log + [Invalidation(id, Delayed, true, early)];
    EarlyBreaksDelay(c, s4.log, id, 0, early);
  }

  lemma EarlyRunBreaks(c: Config, id: EventId, middle: seq<Step>, early: Time)
    requires PossibleRun(c, START, Scheduled(id)) && PossibleRun(c, After(c, START, Scheduled(id)), middle)
    requires Early(After(c, After(c, START, Scheduled(id)), middle), id, early) && early < c.delay
    ensures !AlwaysKeepsDelay(c)
  {
    var last := [Find(0, id), Claim(0), Invalidate(0, true), Finish(0, NoFault)];
    RunFrom(c, START, Scheduled(id), middle);
    var s := After(c, START, Scheduled(id) + middle);
    CompletesEarly(c, s, id, early);
    RunFrom(c, START, Scheduled(id) + middle, last);
    var steps := Scheduled(id) + middle + last;
    assert Empty(START) && PossibleRun(c, START, steps) && Matches(After(c, START, steps).table, id, Completed);
    assert !DelayKept(c, After(c, START, steps).log, id);
  }

  /** Every completed event has had its full delay, in every run of any workers, exactly when
      the delay is no longer than the lease and, if failures are retried, the first backoff. */
  lemma DelayHoldsExactly(c: Config)
    ensures AlwaysKeepsDelay(c) <==> c.delay <= c.lease && (c.maxRetries >= 2 ==> c.delay <= Backoff(c, 1))
  {
    if c.delay <= c.lease && (c.maxRetries >= 2 ==> c.delay <= Backoff(c, 1)) {
      forall s: State, steps: seq<Step>, id: EventId |
        Empty(s) && PossibleRun(c, s, steps) && Matches(After(c, s, steps).table, id, Completed)
        ensures DelayKept(c, After(c, s, steps).log, id)
      {
        CompletedAfterBoth(c, s, steps, id);
        BothDoneKeepsDelay(c, After(c, s, steps).log, id);
      }
    } else {
      StaleWorkerHolds(c, 0);
      var held := After(c, START, Scheduled(0));
      if c.delay > c.lease {
        DiesEarly(c, held, 0);
        EarlyRunBreaks(c, 0, [Die(1), Tick(c.lease), Recover, Tick(c.lease)], c.lease);
      } else {
        FailsEarly(c, held, 0);
        var b := Backoff(c, 1);
        EarlyRunBreaks(c, 0, [Invalidate(1, false), Finish(1, NoFault), Tick(b), Tick(b)], b);
      }
    }
  }
}
