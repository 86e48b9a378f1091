/** The cache-invalidation outbox: the guarded row updates, and workers that hold snapshots
    which may be stale when they act on them. */
module Outbox {
  type EventId = nat
  type Ticket = nat
  /** Milliseconds on one logical clock. */
  type Time = nat

  datatype Stage = Initial | Delayed

  datatype Status = Waiting | Processing | Completed | Dead

  datatype Row = Row(cacheName: string, key: nat, stage: Stage, status: Status, retryCount: nat, nextRetryTime: Time)

  type Table = map<EventId, Row>

  datatype Config = Config(batchSize: nat, lease: Time, maxRetries: nat, maxBackoffSeconds: nat, delay: Time)

  // ------------------------------------------------------------ the mapper's updates

  /** `recordShopInvalidation` */
  function NewRow(shop: nat, now: Time): Row {
    Row("shop", shop, Initial, Waiting, 0, now)
  }

  /** A row that an update with this status in its WHERE clause affects. */
  predicate Matches(t: Table, id: EventId, status: Status) {
    id in t && t[id].status == status
  }

  predicate Due(row: Row, now: Time) {
    row.status == Waiting && row.nextRetryTime <= now
  }

  function Claimed(t: Table, id: EventId, leaseDeadline: Time): Table {
    if Matches(t, id, Waiting) then t[id := t[id].(status := Processing, nextRetryTime := leaseDeadline)] else t
  }

  function StageDelayed(t: Table, id: EventId, next: Time): Table {
    if Matches(t, id, Processing)
    then t[id := t[id].(status := Waiting, stage := Delayed, retryCount := 0, nextRetryTime := next)] else t
  }

  function MarkedCompleted(t: Table, id: EventId): Table {
    if Matches(t, id, Processing) then t[id := t[id].(status := Completed)] else t
  }

  function MarkedRetry(t: Table, id: EventId, retryCount: nat, next: Time): Table {
    if Matches(t, id, Processing)
    then t[id := t[id].(status := Waiting, retryCount := retryCount, nextRetryTime := next)] else t
  }

  function MarkedDead(t: Table, id: EventId, retryCount: nat): Table {
    if Matches(t, id, Processing) then t[id := t[id].(status := Dead, retryCount := retryCount)] else t
  }

  function Recovered(t: Table, now: Time): Table {
    map id | id in t ::
      if t[id].status == Processing && t[id].nextRetryTime <= now then t[id].(status := Waiting) else t[id]
  }

  // ------------------------------------------------------------ the task

  function Min(a: nat, b: nat): nat {
    if a <= b then a else b
  }

  function PowerOfTwo(n: nat): (r: nat)
    ensures r >= 1
  {
    if n == 0 then 1 else 2 * PowerOfTwo(n - 1)
  }

  /** `handleFailure`: the wait before retry number `retryCount`, which is at least 1. */
  function Backoff(c: Config, retryCount: nat): Time
    requires retryCount >= 1
  {
    1000 * Min(c.maxBackoffSeconds, PowerOfTwo(Min(retryCount - 1, 20)))
  }

  function FailureHandled(c: Config, t: Table, id: EventId, seen: Row, now: Time): Table {
    var retryCount := seen.retryCount + 1;
    if retryCount >= c.maxRetries then MarkedDead(t, id, retryCount)
    else MarkedRetry(t, id, retryCount, now + Backoff(c, retryCount))
  }

  function SuccessHandled(c: Config, t: Table, id: EventId, seen: Row, now: Time): Table {
    if seen.stage == Initial then StageDelayed(t, id, now + c.delay) else MarkedCompleted(t, id)
  }

  // ------------------------------------------------------------ workers

  /** How far a worker is with an event it has listed. */
  datatype Phase = Listed | Held | Invalidated(ok: bool) | Failing

  /** An event as a worker saw it; `found` is the length of the log at that moment. */
  datatype Job = Job(event: EventId, seen: Row, phase: Phase, found: nat, foundAt: Time)

  datatype Entry =
    | Invalidation(event: EventId, stage: Stage, ok: bool, at: Time)
    | Scheduling(event: EventId, at: Time)

  datatype State = State(table: Table, jobs: map<Ticket, Job>, now: Time, log: seq<Entry>)

  /** Whether the finishing update fails: not at all, before it takes effect, or after. */
  datatype Fault = NoFault | NotApplied | AppliedButThrows

  datatype Step =
    | Record(id: EventId, shop: nat)
    | Tick(time: Time)
    | Recover
    | Find(ticket: Ticket, id: EventId)
    | Claim(ticket: Ticket)
    | Invalidate(ticket: Ticket, ok: bool)
    | Finish(ticket: Ticket, fault: Fault)
    | Fail(ticket: Ticket)
    | Die(ticket: Ticket)

  predicate InPhase(s: State, ticket: Ticket, phase: Phase) {
    ticket in s.jobs && s.jobs[ticket].phase == phase
  }

  predicate Possible(s: State, step: Step) {
    match step
    case Record(id, _) => id !in s.table
    case Tick(time) => time >= s.now
    case Recover => true
    case Find(ticket, id) => ticket !in s.jobs && id in s.table && Due(s.table[id], s.now)
    case Claim(ticket) => InPhase(s, ticket, Listed)
    case Invalidate(ticket, ok) => InPhase(s, ticket, Held) && (ok ==> s.jobs[ticket].seen.cacheName == "shop")
    case Finish(ticket, _) => ticket in s.jobs && s.jobs[ticket].phase.Invalidated?
    case Fail(ticket) => InPhase(s, ticket, Failing)
    case Die(ticket) => ticket in s.jobs
  }

  /** The finishing updates of `processOne`; an exception of the update itself leads to
      `handleFailure` as well, at any time after the update if that has taken effect. */
  function Finished(c: Config, s: State, ticket: Ticket, fault: Fault): State
    requires ticket in s.jobs && s.jobs[ticket].phase.Invalidated?
  {
    var j := s.jobs[ticket];
    var done := s.(jobs := s.jobs - {ticket});
    if !j.phase.ok then done.(table := FailureHandled(c, s.table, j.event, j.seen, s.now))
    else if fault == NotApplied then done.(table := FailureHandled(c, s.table, j.event, j.seen, s.now))
    else
      done.(table := SuccessHandled(c, s.table, j.event, j.seen, s.now),
            jobs := if fault == AppliedButThrows then s.jobs[ticket := j.(phase := Failing)] else s.jobs - {ticket},
            log := if j.seen.stage == Initial && Matches(s.table, j.event, Processing)
                   then s.log + [Scheduling(j.event, s.now)] else s.log)
  }

  function Next(c: Config, s: State, step: Step): State
    requires Possible(s, step)
  {
    match step
    case Record(id, shop) => s.(table := s.table[id := NewRow(shop, s.now)])
    case Tick(time) => s.(now := time)
    case Recover => s.(table := Recovered(s.table, s.now))
    case Find(ticket, id) => s.(jobs := s.jobs[ticket := Job(id, s.table[id], Listed, |s.log|, s.now)])
    case Claim(ticket) =>
      var j := s.jobs[ticket];
      if Matches(s.table, j.event, Waiting)
      then s.(table := Claimed(s.table, j.event, s.now + c.lease), jobs := s.jobs[ticket := j.(phase := Held)])
      else s.(jobs := s.jobs - {ticket})
    case Invalidate(ticket, ok) =>
      var j := s.jobs[ticket];
      s.(jobs := s.jobs[ticket := j.(phase := Invalidated(ok))],
         log := s.log + [Invalidation(j.event, j.seen.stage, ok, s.now)])
    case Finish(ticket, fault) => Finished(c, s, ticket, fault)
    case Fail(ticket) =>
      var j := s.jobs[ticket];
      s.(jobs := s.jobs - {ticket}, table := FailureHandled(c, s.table, j.event, j.seen, s.now))
    case Die(ticket) => s.(jobs := s.jobs - {ticket})
  }

  predicate PossibleRun(c: Config, s: State, steps: seq<Step>)
    decreases |steps|
  {
    steps == [] || (Possible(s, steps[0]) && PossibleRun(c, Next(c, s, steps[0]), steps[1..]))
  }

  function After(c: Config, s: State, steps: seq<Step>): State
    requires PossibleRun(c, s, steps)
    decreases |steps|
  {
    if steps == [] then s else After(c, Next(c, s, steps[0]), steps[1..])
  }

  predicate Empty(s: State) {
    s.table == map[] && s.jobs == map[] && s.log == []
  }
}
