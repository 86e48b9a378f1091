/** The guarantees of the order pipeline, over every run from an initial state. */
module OrderGuarantees {
  import opened Orders
  import opened OrderSafety

  // ------------------------------------------------------------ who is accepted

  /** The request finds the sale open, stock left, and the user without order. */
  predicate Acceptable(r: Redis, user: User, a: Activity) {
    user !in r.reservation && user !in r.legacy && a.begin.Some? && a.end.Some? &&
    a.begin.value <= a.now <= a.end.value && r.stock > 0
  }

  lemma AcceptedExactly(r: Redis, user: User, order: OrderId, a: Activity)
    ensures var (reply, r') := SeckillScript(r, user, order, a);
            (reply == Accepted <==> Acceptable(r, user, a)) && (reply != Accepted ==> r' == r)
  {
  }

  lemma OthersBringNoOrder(s: State, step: Step)
    requires Invariant(s) && Possible(s, step) && !step.Request?
    ensures Next(s, step).redis.data.Keys == s.redis.data.Keys
  {
    var s' := Next(s, step);
    hide Invariant;
    match step
    case RequestDies(_) =>
    case Route(_, _) =>
    case RetryExpires(_) =>
    case ListDue(_) =>
    case FirstSend(order, sending) => SendBringsNone(s, order);
    case Return(id) => ConfirmBringsNone(s, id);
    case Ack(id) => ConfirmBringsNone(s, id);
    case Nack(id) => ConfirmBringsNone(s, id);
    case Consume(tag, fault, forward) => DeliveryBringsNone(s, tag, fault);
    case ConsumerDies(tag, fault) => DeliveryBringsNone(s, tag, fault);
    case HandleFailed(tag, fault, parked) => FailureBringsNone(s, tag, fault, parked);
    case Republish(order, fault, sending) => RepublishBringsNone(s, order, fault, sending);
    case RepublisherDies(order) => DeathBringsNone(s, order);
  }

  lemma MarksBringNone(r: Redis, order: OrderId, user: User)
    requires order in r.data
    ensures SendFailed(r, order).data.Keys == SendSucceeded(r, order).data.Keys == r.data.Keys
    ensures RouteFailure(r, order, user).data.Keys == BeforeRepublish(r, order).data.Keys == r.data.Keys
    ensures MarkedFailed(r, order).data.Keys == MarkedConsuming(r, order).data.Keys == r.data.Keys
    ensures PendingRemoved(r, order).data.Keys == RestoreScript(r, user, order).1.data.Keys == r.data.Keys
  {
  }

  lemma SendBringsNone(s: State, order: OrderId)
    requires Invariant(s) && order in s.toSend
    ensures SendFailed(s.redis, order).data.Keys == s.redis.data.Keys
  {
    assert Belongs(s, order, s.toSend[order]);
    MarksBringNone(s.redis, order, s.toSend[order]);
  }

  lemma ConfirmBringsNone(s: State, id: SendId)
    requires Invariant(s) && id in s.sends
    ensures var r, m := s.redis, s.sends[id];
            SendFailed(r, m.order).data.Keys == SendSucceeded(r, m.order).data.Keys
              == RouteFailure(r, m.order, m.user).data.Keys == r.data.Keys
  {
    var m := s.sends[id];
    assert Belongs(s, m.order, m.user);
    MarksBringNone(s.redis, m.order, m.user);
  }

  lemma DeliveryBringsNone(s: State, tag: Tag, fault: Fault)
    requires Invariant(s) && tag in s.copies
    ensures Processed(s, s.copies[tag].order, s.copies[tag].user, fault).1.redis.data.Keys == s.redis.data.Keys
  {
    var c := s.copies[tag];
    assert Belongs(s, c.order, c.user);
    var marked := MarkedConsuming(s.redis, c.order);
    MarksBringNone(s.redis, c.order, c.user);
    MarksBringNone(marked, c.order, c.user);
    ProcessedCases(s, c.order, c.user, fault);
    hide Processed, MarkedConsuming, PendingRemoved, Invariant;
  }

  lemma FailureBringsNone(s: State, tag: Tag, fault: FailedFault, parked: bool)
    requires Invariant(s) && tag in s.copies
    ensures FailureHandled(s, tag, fault, parked).redis.data.Keys == s.redis.data.Keys
  {
    var c := s.copies[tag];
    assert Belongs(s, c.order, c.user);
    var restored := RestoreScript(s.redis, c.user, c.order).1;
    MarksBringNone(s.redis, c.order, c.user);
    MarksBringNone(restored, c.order, c.user);
    FailureCases(s, tag, fault, parked);
    hide FailureHandled, RestoreScript, MarkedFailed, PendingRemoved, Invariant;
  }

  lemma RepublishBringsNone(s: State, order: OrderId, fault: RepublishFault, sending: Sending)
    requires Invariant(s) && order in s.listed
    ensures Republished(s, order, fault, sending).redis.data.Keys == s.redis.data.Keys
  {
    assert Healthy(s, order);
    var user := s.redis.data[order].user.value;
    var restored, before := RestoreScript(s.redis, user, order).1, BeforeRepublish(s.redis, order);
    MarksBringNone(s.redis, order, user);
    MarksBringNone(restored, order, user);
    MarksBringNone(before, order, user);
    RepublishCases(s, order, fault, sending, user);
    hide Republished, RestoreScript, MarkedFailed, PendingRemoved, SendFailed, BeforeRepublish, Invariant;
  }

  lemma DeathBringsNone(s: State, order: OrderId)
    requires Invariant(s) && order in s.listed
    ensures Interrupted(s, order).redis.data.Keys == s.redis.data.Keys
  {
    assert Healthy(s, order);
    MarksBringNone(s.redis, order, s.redis.data[order].user.value);
    DeathCases(s, order);
    hide RestoreScript, BeforeRepublish, Interrupted, Invariant, Healthy;
  }

  /** The run has a request for the order that was acceptable when it came. */
  predicate Requested(s: State, steps: seq<Step>, order: OrderId)
    requires PossibleRun(s, steps)
    decreases |steps|
  {
    steps != [] &&
    ((steps[0].Request? && steps[0].order == order && Acceptable(s.redis, steps[0].user, steps[0].activity)) ||
     Requested(Next(s, steps[0]), steps[1..], order))
  }

  lemma {:induction false} RequestedFrom(s: State, steps: seq<Step>, order: OrderId)
    requires Invariant(s) && PossibleRun(s, steps) && order !in s.redis.data
    requires order in After(s, steps).redis.data
    ensures Requested(s, steps, order)
    decreases |steps|
  {
    var step, s1 := steps[0], Next(s, steps[0]);
    StepKeepsInvariant(s, step);
    if step.Request? {
      AcceptedExactly(s.redis, step.user, step.order, step.activity);
    } else {
      OthersBringNoOrder(s, step);
    }
    hide Invariant, Acceptable;
    if order !in s1.redis.data {
      RequestedFrom(s1, steps[1..], order);
    }
  }

  /** An order becomes known only by a request during the activity, with stock left, of a user
      with neither a reservation nor an order from before. */
  lemma AcceptedOnlyWhenOpen(s: State, steps: seq<Step>, order: OrderId)
    requires Initial(s) && PossibleRun(s, steps) && order in After(s, steps).redis.data
    ensures Requested(s, steps, order)
  {
    InitialInvariant(s);
    RequestedFrom(s, steps, order);
  }

  // ------------------------------------------------------------ what every write to Redis keeps

  /** Units that are free or held. */
  function Units(r: Redis): int {
    r.stock + |r.reservation| + |r.legacy|
  }

  /** Orders stay known, units stay the same and the stock does not become negative. */
  predicate Keeps(r: Redis, r': Redis) {
    r.data.Keys <= r'.data.Keys && Units(r') == Units(r) && (r.stock >= 0 ==> r'.stock >= 0)
  }

  lemma MarksKeep(r: Redis, order: OrderId, user: User)
    ensures Keeps(r, SendSucceeded(r, order)) && Keeps(r, SendFailed(r, order))
    ensures Keeps(r, RouteFailure(r, order, user)) && Keeps(r, BeforeRepublish(r, order))
    ensures Keeps(r, MarkedFailed(r, order)) && Keeps(r, MarkedConsuming(r, order))
    ensures Keeps(r, PendingRemoved(r, order))
  {
    forall status ensures Keeps(r, Marked(r, order, status)) {
    }
  }

  lemma ReservingKeeps(r: Redis, user: User, order: OrderId, a: Activity)
    ensures Keeps(r, SeckillScript(r, user, order, a).1)
  {
    if user !in r.reservation {
      assert |r.reservation[user := order]| == |r.reservation| + 1;
    }
  }

  lemma RestoringKeeps(r: Redis, user: User, order: OrderId)
    ensures Keeps(r, RestoreScript(r, user, order).1)
  {
    if user in r.reservation {
      assert r.reservation == (r.reservation - {user})[user := r.reservation[user]];
      assert |r.reservation| == |r.reservation - {user}| + 1;
    } else if user in r.legacy {
      assert |r.legacy - {user}| == |r.legacy| - 1;
    }
  }

  lemma ProcessedKeepsRedis(s: State, order: OrderId, user: User, fault: Fault)
    ensures Keeps(s.redis, Processed(s, order, user, fault).1.redis)
  {
    var marked := MarkedConsuming(s.redis, order);
    MarksKeep(s.redis, order, user);
    MarksKeep(marked, order, user);
    KeepsTwice(s.redis, marked, PendingRemoved(marked, order));
    ProcessedCases(s, order, user, fault);
    hide Keeps, Processed, MarkedConsuming, PendingRemoved;
    KeepsItself(s.redis);
  }

  lemma FailureKeepsRedis(s: State, tag: Tag, fault: FailedFault, parked: bool)
    requires tag in s.copies
    ensures Keeps(s.redis, FailureHandled(s, tag, fault, parked).redis)
  {
    var c := s.copies[tag];
    var restored := RestoreScript(s.redis, c.user, c.order).1;
    RestoringKeeps(s.redis, c.user, c.order);
    MarksKeep(s.redis, c.order, c.user);
    MarksKeep(restored, c.order, c.user);
    KeepsTwice(s.redis, restored, MarkedFailed(restored, c.order));
    FailureCases(s, tag, fault, parked);
    hide Keeps, FailureHandled, RestoreScript, PendingRemoved, MarkedFailed;
    KeepsItself(s.redis);
  }

  lemma KeepsItself(r: Redis)
    ensures Keeps(r, r)
  {
  }

  lemma KeepsTwice(r: Redis, r': Redis, r'': Redis)
    requires Keeps(r, r') && Keeps(r', r'')
    ensures Keeps(r, r'')
  {
  }

  lemma GivingUpKeeps(r: Redis, user: User, order: OrderId)
    ensures var restored := RestoreScript(r, user, order).1;
            Keeps(r, MarkedFailed(restored, order)) && Keeps(r, SendFailed(restored, order))
  {
    var restored := RestoreScript(r, user, order).1;
    RestoringKeeps(r, user, order);
    MarksKeep(restored, order, user);
    hide Keeps, RestoreScript, MarkedFailed, SendFailed;
    KeepsTwice(r, restored, MarkedFailed(restored, order));
    KeepsTwice(r, restored, SendFailed(restored, order));
  }

  lemma TryingKeeps(r: Redis, order: OrderId)
    ensures Keeps(r, SendFailed(BeforeRepublish(r, order), order))
  {
    MarksKeep(r, order, 0);
    MarksKeep(BeforeRepublish(r, order), order, 0);
    hide Keeps, SendFailed, BeforeRepublish;
    KeepsTwice(r, BeforeRepublish(r, order), SendFailed(BeforeRepublish(r, order), order));
  }

  lemma RepublishKeepsRedis(s: State, order: OrderId, fault: RepublishFault, sending: Sending)
    ensures Keeps(s.redis, Republished(s, order, fault, sending).redis)
  {
    var user := if order in s.redis.data && s.redis.data[order].user.Some? then s.redis.data[order].user.value else 0;
    GivingUpKeeps(s.redis, user, order);
    TryingKeeps(s.redis, order);
    MarksKeep(s.redis, order, user);
    RepublishCases(s, order, fault, sending, user);
    hide Republished;
  }

  lemma StepKeepsRedis(s: State, step: Step)
    requires Possible(s, step)
    ensures Keeps(s.redis, Next(s, step).redis)
  {
    hide Keeps, Processed, FailureHandled, Republished, Interrupted, SeckillScript, SendSucceeded, SendFailed, RouteFailure;
    KeepsItself(s.redis);
    match step
    case Request(user, order, activity) => ReservingKeeps(s.redis, user, order, activity);
    case FirstSend(order, _) => MarksKeep(s.redis, order, 0);
    case Return(id) => MarksKeep(s.redis, s.sends[id].order, s.sends[id].user);
    case Ack(id) => MarksKeep(s.redis, s.sends[id].order, 0);
    case Nack(id) => MarksKeep(s.redis, s.sends[id].order, 0);
    case Consume(tag, fault, _) => ProcessedKeepsRedis(s, s.copies[tag].order, s.copies[tag].user, fault);
    case ConsumerDies(tag, fault) => ProcessedKeepsRedis(s, s.copies[tag].order, s.copies[tag].user, fault);
    case HandleFailed(tag, fault, parked) => FailureKeepsRedis(s, tag, fault, parked);
    case Republish(order, fault, sending) => RepublishKeepsRedis(s, order, fault, sending);
    case RepublisherDies(order) => DeathKeepsRedis(s, order);
    case _ =>
  }

  lemma DeathKeepsRedis(s: State, order: OrderId)
    ensures Keeps(s.redis, Interrupted(s, order).redis)
  {
    var user := if order in s.redis.data && s.redis.data[order].user.Some? then s.redis.data[order].user.value else 0;
    RestoringKeeps(s.redis, user, order);
    MarksKeep(s.redis, order, user);
    KeepsItself(s.redis);
    hide Keeps, RestoreScript, BeforeRepublish;
  }

  /** Redis conserves its units over every run: each is either free or held by one user, and
      the stock is never negative. */
  lemma {:induction false} RedisConserves(s: State, steps: seq<Step>)
    requires PossibleRun(s, steps)
    ensures Keeps(s.redis, After(s, steps).redis)
    decreases |steps|
  {
    if steps != [] {
      StepKeepsRedis(s, steps[0]);
      RedisConserves(Next(s, steps[0]), steps[1..]);
    }
  }

  // ------------------------------------------------------------ no accepted order is lost

  lemma CarriedAny(s: State, s': State, order: OrderId)
    requires AllCarried(s, s') && order in s'.redis.data
    ensures (order in s.redis.data ==> NotLost(s, order)) ==> NotLost(s', order)
    ensures (order in s.redis.data ==> Steady(s, order)) ==> Steady(s', order)
  {
    assert Carried(s, s', order);
  }

  lemma CarriedOther(s: State, s': State, other: OrderId, order: OrderId)
    requires OthersCarried(s, s', other) && order != other && order in s'.redis.data
    ensures (order in s.redis.data ==> NotLost(s, order)) ==> NotLost(s', order)
    ensures (order in s.redis.data ==> Steady(s, order)) ==> Steady(s', order)
  {
    assert Carried(s, s', order);
  }

  lemma AckDecides(s: State, id: SendId, order: OrderId)
    requires Invariant(s) && Possible(s, Ack(id)) && (order in s.redis.data ==> NotLost(s, order))
    ensures order in Next(s, Ack(id)).redis.data ==> (NotLost(Next(s, Ack(id)), order) <==> !Fatal(s, Ack(id), order))
  {
    hide Invariant, NotLost, Steady, Next, Carried, AllCarried, OthersCarried, Covered;
    var s' := Next(s, Ack(id));
    AckKeeps(s, id);
    KnownInvariant(s, id);
    if order in s'.redis.data && order != s.sends[id].order {
      CarriedOther(s, s', s.sends[id].order, order);
    }
  }

  lemma DeathDecides(s: State, died: OrderId, order: OrderId)
    requires Invariant(s) && Possible(s, RepublisherDies(died)) && (order in s.redis.data ==> NotLost(s, order))
    ensures var s' := Next(s, RepublisherDies(died));
            order in s'.redis.data ==> (NotLost(s', order) <==> !Fatal(s, RepublisherDies(died), order))
  {
    hide Invariant, NotLost, DiesBadly, Next, Carried, AllCarried, OthersCarried, Covered;
    var s' := Next(s, RepublisherDies(died));
    DeathKeeps(s, died);
    ListedIsKnown(s, died);
    if order in s'.redis.data && order != died {
      CarriedOther(s, s', died, order);
    }
  }

  lemma StepDecides(s: State, step: Step, order: OrderId)
    requires Invariant(s) && Possible(s, step) && (order in s.redis.data ==> NotLost(s, order))
    ensures Invariant(Next(s, step))
    ensures order in Next(s, step).redis.data ==> (NotLost(Next(s, step), order) <==> !Fatal(s, step, order))
  {
    StepKeepsInvariant(s, step);
    hide Invariant, NotLost, Next, AllCarried;
    match step
    case Ack(id) => AckDecides(s, id, order);
    case RepublisherDies(died) => DeathDecides(s, died, order);
    case _ =>
      HarmlessKeeps(s, step);
      if order in Next(s, step).redis.data {
        CarriedAny(s, Next(s, step), order);
      }
  }

  lemma KnownInvariant(s: State, id: SendId)
    requires Invariant(s) && id in s.sends
    ensures s.sends[id].order in s.redis.data
  {
  }

  lemma ListedIsKnown(s: State, order: OrderId)
    requires Invariant(s) && order in s.listed
    ensures order in s.redis.data
  {
  }

  /** At no time of the run is the order, once it has been accepted, lost. */
  predicate Survives(s: State, steps: seq<Step>, order: OrderId)
    requires PossibleRun(s, steps)
    decreases |steps|
  {
    (order in s.redis.data ==> NotLost(s, order)) && (steps == [] || Survives(Next(s, steps[0]), steps[1..], order))
  }

  /** No republishing task dies with nothing but the pending set or the mark of a failure to
      keep the order, and none dies after its mark and before its send so that an older send is
      acknowledged before anything covers the order. */
  predicate Spared(s: State, steps: seq<Step>, order: OrderId)
    requires PossibleRun(s, steps)
    decreases |steps|
  {
    steps == [] || (!Fatal(s, steps[0], order) && Spared(Next(s, steps[0]), steps[1..], order))
  }

  lemma {:induction false} SurvivesFrom(s: State, steps: seq<Step>, order: OrderId)
    requires Invariant(s) && PossibleRun(s, steps) && (order in s.redis.data ==> NotLost(s, order))
    ensures Survives(s, steps, order) <==> Spared(s, steps, order)
    decreases |steps|
  {
    hide Invariant, NotLost, Next;
    if steps != [] {
      var s1 := Next(s, steps[0]);
      StepDecides(s, steps[0], order);
      if Fatal(s, steps[0], order) {
        FatalIsKnown(s, steps[0], order);
      }
      if order in s1.redis.data && !NotLost(s1, order) {
        assert !Survives(s1, steps[1..], order);
      } else {
        SurvivesFrom(s1, steps[1..], order);
      }
    }
  }

  lemma FatalIsKnown(s: State, step: Step, order: OrderId)
    requires Invariant(s) && Possible(s, step) && Fatal(s, step, order)
    ensures order in Next(s, step).redis.data
  {
    StepKeepsRedis(s, step);
    hide Keeps;
    assert Keeps(s.redis, Next(s, step).redis);
  }

  /** In every interleaving of requests, sends, returns, confirms, deliveries, retries and
      republishing, with any deaths, an accepted order is never lost if and only if it is spared. */
  lemma SurvivesExactlyIfSpared(s: State, steps: seq<Step>, order: OrderId)
    requires Initial(s) && PossibleRun(s, steps)
    ensures Survives(s, steps, order) <==> Spared(s, steps, order)
  {
    InitialInvariant(s);
    SurvivesFrom(s, steps, order);
  }

  lemma {:induction false} SurvivesToTheEnd(s: State, steps: seq<Step>, order: OrderId)
    requires PossibleRun(s, steps) && Survives(s, steps, order) && order in After(s, steps).redis.data
    ensures NotLost(After(s, steps), order)
    decreases |steps|
  {
    if steps != [] {
      SurvivesToTheEnd(Next(s, steps[0]), steps[1..], order);
    }
  }

  predicate NeverDiesOn(steps: seq<Step>, order: OrderId) {
    forall step | step in steps :: step != RepublisherDies(order)
  }

  lemma StaysSteady(s: State, step: Step, order: OrderId)
    requires Invariant(s) && Possible(s, step) && step != RepublisherDies(order)
    requires order in s.redis.data ==> Steady(s, order)
    ensures order in Next(s, step).redis.data ==> Steady(Next(s, step), order)
    ensures !Fatal(s, step, order)
  {
    var s' := Next(s, step);
    hide Invariant, NotLost, Steady, DiesBadly, Next, Carried, AllCarried, OthersCarried;
    match step
    case Ack(id) =>
      AckKeeps(s, id);
      KnownInvariant(s, id);
      if order in s'.redis.data && order != s.sends[id].order {
        CarriedOther(s, s', s.sends[id].order, order);
      }
    case RepublisherDies(o) =>
      DeathKeeps(s, o);
      if order in s'.redis.data && order != o {
        CarriedOther(s, s', o, order);
      }
    case _ =>
      HarmlessKeeps(s, step);
      if order in s'.redis.data {
        CarriedAny(s, s', order);
      }
  }

  lemma {:induction false} SteadyIsSpared(s: State, steps: seq<Step>, order: OrderId)
    requires Invariant(s) && PossibleRun(s, steps) && NeverDiesOn(steps, order)
    requires order in s.redis.data ==> Steady(s, order)
    ensures Spared(s, steps, order) && (order in After(s, steps).redis.data ==> Steady(After(s, steps), order))
    decreases |steps|
  {
    hide Invariant, Steady, Fatal, Next;
    if steps != [] {
      assert steps[0] in steps && forall step | step in steps[1..] :: step in steps;
      StaysSteady(s, steps[0], order);
      StepKeepsInvariant(s, steps[0]);
      SteadyIsSpared(Next(s, steps[0]), steps[1..], order);
    }
  }

  /** Unless a republishing task dies while it handles the order, an accepted order is not
      lost, whatever else dies, fails or comes late. */
  lemma NoAcceptedOrderIsLost(s: State, before: seq<Step>, order: OrderId, later: seq<Step>)
    requires Initial(s) && PossibleRun(s, before) && order in After(s, before).redis.data
    requires PossibleRun(After(s, before), later)
    requires NeverDiesOn(before, order) && NeverDiesOn(later, order)
    ensures NotLost(After(After(s, before), later), order)
  {
    var accepted := After(s, before);
    InitialInvariant(s);
    RunKeepsInvariant(s, before);
    SteadyIsSpared(s, before, order);
    SurvivesFrom(s, before, order);
    SurvivesToTheEnd(s, before, order);
    SteadyIsSpared(accepted, later, order);
    SurvivesFrom(accepted, later, order);
    RedisConserves(accepted, later);
    SurvivesToTheEnd(accepted, later, order);
  }

  /** A client who is told COMPLETED has a row in MySQL. */
  lemma CompletedHasRow(s: State, steps: seq<Step>, order: OrderId, user: User)
    requires Initial(s) && PossibleRun(s, steps)
    requires Query(After(s, steps), order, user) == Completed
    ensures HasRow(After(s, steps), user)
  {
    InitialInvariant(s);
    RunKeepsInvariant(s, steps);
    assert order in After(s, steps).redis.data ==> Healthy(After(s, steps), order);
  }

  // ------------------------------------------------------------ stock

  /** MySQL: orders and remaining stock together, and one order per user. */
  predicate SameSale(db: MySql, db': MySql) {
    |db'.rows| + db'.stock == |db.rows| + db.stock && (OneRowEach(db) ==> OneRowEach(db'))
  }

  lemma CreateKeepsSale(db: MySql, order: OrderId, user: User)
    ensures SameSale(db, CreateOrder(db, order, user).1)
  {
    var (creation, db') := CreateOrder(db, order, user);
    if creation == Created {
      assert |db'.rows| == |db.rows| + 1;
      assert forall o | o in db.rows :: db.rows[o] in db.rows.Values;
    }
  }

  lemma StepKeepsSale(s: State, step: Step)
    requires Possible(s, step)
    ensures SameSale(s.db, Next(s, step).db)
  {
    hide SameSale, SendFailed, SendSucceeded, RouteFailure, PendingRemoved, MarkedFailed, MarkedConsuming,
         RestoreScript, BeforeRepublish, CreateOrder, SeckillScript;
    SameSaleItself(s.db);
    if step.Consume? || step.ConsumerDies? {
      CreateKeepsSale(s.db, s.copies[step.tag].order, s.copies[step.tag].user);
    }
  }

  lemma SameSaleItself(db: MySql)
    ensures SameSale(db, db)
  {
  }

  /** Whatever fails or is delivered again, MySQL sells what it had: orders plus remaining
      stock stay the same, the stock is never negative and no user gets two orders. */
  lemma {:induction false} MySqlSells(s: State, steps: seq<Step>)
    requires PossibleRun(s, steps)
    ensures SameSale(s.db, After(s, steps).db)
    decreases |steps|
  {
    if steps != [] {
      var s1 := Next(s, steps[0]);
      StepKeepsSale(s, steps[0]);
      MySqlSells(s1, steps[1..]);
    }
  }

  // ------------------------------------------------------------ Redis and MySQL agree in the end

  /** What Redis keeps in a sale without earlier orders: reservations belong to accepted
      orders, and failed orders are in the failed set. */
  predicate FreshRedis(r: Redis) {
    r.legacy == {} &&
    (forall u | u in r.reservation :: r.reservation[u] in r.data && r.data[r.reservation[u]].user == Some(u)) &&
    (forall o | o in r.data && r.data[o].status == Failed :: o in r.failed)
  }

  predicate FreshSale(s: State) {
    s.db.rows.Keys <= s.redis.data.Keys && FreshRedis(s.redis)
  }

  lemma MarkKeepsFresh(r: Redis, r': Redis, order: OrderId)
    requires FreshRedis(r) && Touches(r, r', order)
    requires r'.legacy == r.legacy && r'.reservation == r.reservation && r.failed <= r'.failed
    requires r'.data[order].status == Failed ==> r.data[order].status == Failed || order in r'.failed
    ensures FreshRedis(r')
  {
  }

  lemma SendMarksKeepFresh(r: Redis, order: OrderId)
    requires FreshRedis(r) && order in r.data
    ensures FreshRedis(SendSucceeded(r, order)) && FreshRedis(SendFailed(r, order)) && FreshRedis(BeforeRepublish(r, order))
  {
    hide FreshRedis;
    MarkKeepsFresh(r, SendSucceeded(r, order), order);
    MarkKeepsFresh(r, SendFailed(r, order), order);
    MarkKeepsFresh(r, BeforeRepublish(r, order), order);
  }

  lemma OrderMarksKeepFresh(r: Redis, order: OrderId)
    requires FreshRedis(r) && order in r.data
    ensures FreshRedis(MarkedFailed(r, order)) && FreshRedis(MarkedConsuming(r, order)) && FreshRedis(PendingRemoved(r, order))
  {
    hide FreshRedis;
    MarkKeepsFresh(r, MarkedFailed(r, order), order);
    MarkKeepsFresh(r, MarkedConsuming(r, order), order);
    MarkKeepsFresh(r, PendingRemoved(r, order), order);
  }

  lemma MarksKeepFresh(r: Redis, order: OrderId)
    requires FreshRedis(r) && order in r.data
    ensures FreshRedis(SendSucceeded(r, order)) && FreshRedis(SendFailed(r, order)) && FreshRedis(BeforeRepublish(r, order))
    ensures FreshRedis(MarkedFailed(r, order)) && FreshRedis(MarkedConsuming(r, order)) && FreshRedis(PendingRemoved(r, order))
  {
    SendMarksKeepFresh(r, order);
    OrderMarksKeepFresh(r, order);
  }

  lemma ReservingKeepsFresh(r: Redis, user: User, order: OrderId, a: Activity)
    requires FreshRedis(r) && order !in r.data
    ensures FreshRedis(SeckillScript(r, user, order, a).1)
  {
  }

  lemma RestoringKeepsFresh(r: Redis, user: User, order: OrderId)
    requires FreshRedis(r) && order in r.data
    ensures var restored := RestoreScript(r, user, order).1;
            FreshRedis(restored) && FreshRedis(MarkedFailed(restored, order)) && FreshRedis(SendFailed(restored, order))
  {
    var restored := RestoreScript(r, user, order).1;
    assert FreshRedis(restored) && restored.data == r.data;
    MarksKeepFresh(restored, order);
  }

  lemma DeliveryKeepsFresh(s: State, tag: Tag, fault: Fault)
    requires KnownCopies(s) && FreshSale(s) && tag in s.copies
    ensures FreshSale(Processed(s, s.copies[tag].order, s.copies[tag].user, fault).1)
  {
    var c := s.copies[tag];
    MarksKeepFresh(s.redis, c.order);
    assert c.order in MarkedConsuming(s.redis, c.order).data;
    MarksKeepFresh(MarkedConsuming(s.redis, c.order), c.order);
    ProcessedCases(s, c.order, c.user, fault);
    ProcessedKeepsRedis(s, c.order, c.user, fault);
    hide Processed, MarkedConsuming, PendingRemoved, FreshRedis;
  }

  lemma FailureKeepsFresh(s: State, tag: Tag, fault: FailedFault, parked: bool)
    requires KnownCopies(s) && FreshSale(s) && tag in s.copies
    ensures FreshSale(FailureHandled(s, tag, fault, parked))
  {
    FailureKeepsRedis(s, tag, fault, parked);
    var c := s.copies[tag];
    MarksKeepFresh(s.redis, c.order);
    RestoringKeepsFresh(s.redis, c.user, c.order);
    FailureCases(s, tag, fault, parked);
    hide FailureHandled, RestoreScript, MarkedFailed, PendingRemoved, FreshRedis;
  }

  lemma RepublishKeepsFresh(s: State, order: OrderId, fault: RepublishFault, sending: Sending)
    requires order in s.redis.data && s.redis.data[order].user.Some? && FreshSale(s)
    ensures FreshSale(Republished(s, order, fault, sending))
  {
    RepublishKeepsRedis(s, order, fault, sending);
    var user := s.redis.data[order].user.value;
    var before := BeforeRepublish(s.redis, order);
    MarksKeepFresh(s.redis, order);
    assert order in before.data;
    MarksKeepFresh(before, order);
    RestoringKeepsFresh(s.redis, user, order);
    RepublishCases(s, order, fault, sending, user);
    hide Republished, FreshRedis, RestoreScript, PendingRemoved, MarkedFailed, SendFailed, BeforeRepublish;
  }

  lemma DeathKeepsFresh(s: State, order: OrderId)
    requires order in s.redis.data && FreshSale(s)
    ensures FreshSale(Interrupted(s, order))
  {
    DeathKeepsRedis(s, order);
    SendMarksKeepFresh(s.redis, order);
    if s.redis.data[order].user.Some? {
      RestoringKeepsFresh(s.redis, s.redis.data[order].user.value, order);
    }
    DeathCases(s, order);
    hide FreshRedis, RestoreScript, BeforeRepublish, Interrupted, MarkedFailed, SendFailed;
    FreshAfter(s, Interrupted(s, order));
  }

  lemma DeathCases(s: State, order: OrderId)
    requires order in s.redis.data
    ensures var r, s' := s.redis, Interrupted(s, order);
            s'.db == s.db &&
            (s'.redis == r || s'.redis == BeforeRepublish(r, order) ||
             (r.data[order].user.Some? && s'.redis == RestoreScript(r, r.data[order].user.value, order).1))
  {
    hide RestoreScript, BeforeRepublish;
  }

  lemma FreshAfter(s: State, s': State)
    requires FreshSale(s) && FreshRedis(s'.redis) && s'.db == s.db && Keeps(s.redis, s'.redis)
    ensures FreshSale(s')
  {
  }

  /** The broker's callbacks. */
  lemma CallbackKeepsFresh(s: State, step: Step)
    requires KnownSends(s) && FreshRedis(s.redis) && Possible(s, step) && (step.Return? || step.Ack? || step.Nack?)
    ensures FreshRedis(Next(s, step).redis)
  {
    var m := s.sends[step.id];
    assert Belongs(s, m.order, m.user);
    if step.Return? {
      MarkKeepsFresh(s.redis, RouteFailure(s.redis, m.order, m.user), m.order);
    } else {
      MarksKeepFresh(s.redis, m.order);
      hide FreshRedis, SendFailed, SendSucceeded;
    }
  }

  lemma ConsumedKeepsFresh(s: State, tag: Tag, fault: Fault, forward: Forward)
    requires KnownCopies(s) && FreshSale(s) && tag in s.copies
    ensures FreshSale(Consumed(s, tag, fault, forward))
  {
    DeliveryKeepsFresh(s, tag, fault);
    hide Processed, FreshRedis, KnownCopies;
  }

  lemma KeepsRows(s: State, step: Step)
    requires Possible(s, step) && (step.Request? || step.FirstSend? || step.Return? || step.Ack? || step.Nack?)
    ensures Next(s, step).db == s.db
  {
    hide SeckillScript, SendFailed, SendSucceeded, RouteFailure;
  }

  lemma RequestKeepsFresh(s: State, step: Step)
    requires FreshSale(s) && Possible(s, step) && step.Request?
    ensures FreshSale(Next(s, step))
  {
    StepKeepsRedis(s, step);
    hide FreshRedis, Keeps, SeckillScript;
    ReservingKeepsFresh(s.redis, step.user, step.order, step.activity);
    FreshAfter(s, Next(s, step));
  }

  lemma FirstSendCases(s: State, step: Step)
    requires Possible(s, step) && step.FirstSend?
    ensures Next(s, step).redis in {s.redis, SendFailed(s.redis, step.order)}
  {
    hide SendFailed;
  }

  lemma FirstSendKeepsFresh(s: State, step: Step)
    requires Invariant(s) && FreshSale(s) && Possible(s, step) && step.FirstSend?
    ensures FreshSale(Next(s, step))
  {
    assert Belongs(s, step.order, s.toSend[step.order]);
    StepKeepsRedis(s, step);
    KeepsRows(s, step);
    FirstSendCases(s, step);
    hide Invariant, FreshRedis, Keeps, SendFailed, SendSucceeded, BeforeRepublish, Next, Possible;
    SendMarksKeepFresh(s.redis, step.order);
    FreshAfter(s, Next(s, step));
  }

  lemma CallbacksKeepFresh(s: State, step: Step)
    requires Invariant(s) && FreshSale(s) && Possible(s, step) && (step.Return? || step.Ack? || step.Nack?)
    ensures FreshSale(Next(s, step))
  {
    StepKeepsRedis(s, step);
    assert KnownSends(s);
    KeepsRows(s, step);
    hide Invariant, FreshRedis, Keeps, Next, KnownSends;
    CallbackKeepsFresh(s, step);
    FreshAfter(s, Next(s, step));
  }

  lemma MovesKeepFresh(s: State, step: Step)
    requires FreshSale(s) && Possible(s, step)
    requires step.RequestDies? || step.Route? || step.RetryExpires? || step.ListDue?
    ensures FreshSale(Next(s, step))
  {
  }

  lemma StepKeepsFresh(s: State, step: Step)
    requires Invariant(s) && FreshSale(s) && Possible(s, step)
    ensures FreshSale(Next(s, step))
  {
    assert KnownCopies(s) && (step.Republish? || step.RepublisherDies? ==> Healthy(s, step.order));
    hide KnownCopies, Interrupted, FreshSale, Processed, Consumed, FailureHandled, Republished;
    match step
    case Consume(tag, fault, forward) => ConsumedKeepsFresh(s, tag, fault, forward);
    case ConsumerDies(tag, fault) => DeliveryKeepsFresh(s, tag, fault);
    case HandleFailed(tag, fault, parked) => FailureKeepsFresh(s, tag, fault, parked);
    case Republish(order, fault, sending) => RepublishKeepsFresh(s, order, fault, sending);
    case RepublisherDies(order) => DeathKeepsFresh(s, order);
    case Request(_, _, _) => RequestKeepsFresh(s, step);
    case FirstSend(_, _) => FirstSendKeepsFresh(s, step);
    case Return(_) => CallbacksKeepFresh(s, step);
    case Ack(_) => CallbacksKeepFresh(s, step);
    case Nack(_) => CallbacksKeepFresh(s, step);
    case _ => MovesKeepFresh(s, step);
  }

  /** Nothing is under way, nothing failed and no reservation was released. */
  predicate Quiescent(s: State) {
    s.redis.pending == {} && s.sends == map[] && s.copies == map[] && s.redis.failed == {} &&
    forall o | o in s.redis.data && s.redis.data[o].user.Some? ::
      var u := s.redis.data[o].user.value; u in s.redis.reservation && s.redis.reservation[u] == o
  }

  /** In a quiescent state the users with a reservation are the users with a row. */
  lemma QuiescentRows(s: State)
    requires Invariant(s) && FreshSale(s) && Quiescent(s) && forall o | o in s.redis.data :: NotLost(s, o)
    ensures s.db.rows.Values == s.redis.reservation.Keys && |s.db.rows| == |s.redis.reservation|
  {
    forall u | u in s.redis.reservation ensures u in s.db.rows.Values {
      var o := s.redis.reservation[u];
      assert Belongs(s, o, u) && NotLost(s, o);
      assert s.redis.data[o].status != Failed;
      assert !HasCopy(s, o) && !OnTheWire(s, o);
    }
    forall u | u in s.db.rows.Values ensures u in s.redis.reservation {
      var o :| o in s.db.rows && s.db.rows[o] == u;
      assert Belongs(s, o, u);
    }
    CountRows(s.db.rows);
    CountKeys(s.redis.reservation);
  }

  lemma CountKeys(m: map<User, OrderId>)
    ensures |m.Keys| == |m|
  {
  }

  /** As many users as rows, for the unique key. */
  lemma {:induction false} CountRows(rows: map<OrderId, User>)
    requires forall a, b | a in rows && b in rows && rows[a] == rows[b] :: a == b
    ensures |rows.Values| == |rows|
    decreases |rows|
  {
    if rows != map[] {
      var o :| o in rows;
      var rest := rows - {o};
      assert rows == rest[o := rows[o]];
      CountRows(rest);
      assert rows.Values == rest.Values + {rows[o]};
      assert rows[o] !in rest.Values;
    }
  }

  lemma {:induction false} RunKeepsFresh(s: State, steps: seq<Step>)
    requires Invariant(s) && FreshSale(s) && PossibleRun(s, steps)
    ensures FreshSale(After(s, steps))
    decreases |steps|
  {
    if steps != [] {
      StepKeepsFresh(s, steps[0]);
      StepKeepsInvariant(s, steps[0]);
      RunKeepsFresh(Next(s, steps[0]), steps[1..]);
    }
  }

  /** The end-of-run check of the load test: when a sale that began with equal stocks is
      quiescent and no order was lost, reservations and rows are of the same users and the stocks
      are equal. */
  lemma StocksAgreeInTheEnd(s: State, steps: seq<Step>)
    requires Initial(s) && s.db.rows == map[] && s.redis.legacy == {} && s.redis.stock == s.db.stock
    requires PossibleRun(s, steps) && Quiescent(After(s, steps))
    requires forall order :: Spared(s, steps, order)
    ensures var end := After(s, steps);
            end.db.rows.Values == end.redis.reservation.Keys && |end.db.rows| == |end.redis.reservation| &&
            end.redis.stock == end.db.stock
  {
    InitialInvariant(s);
    RunKeepsInvariant(s, steps);
    RunKeepsFresh(s, steps);
    forall o | o in After(s, steps).redis.data ensures NotLost(After(s, steps), o) {
      SurvivesFrom(s, steps, o);
      SurvivesToTheEnd(s, steps, o);
    }
    QuiescentRows(After(s, steps));
    RedisConserves(s, steps);
    MySqlSells(s, steps);
  }

  // ------------------------------------------------------------ the deaths that lose an order

  /** Nothing but the pending set holds the order, after this many attempts to republish it. */
  predicate Stuck(s: State, order: OrderId, user: User, attempts: nat) {
    s.copies == map[] && s.sends == map[] && order !in s.db.rows && user !in s.db.rows.Values &&
    order in s.redis.data && s.redis.data[order] == Data(Some(user), BrokerNack, attempts) &&
    order in s.redis.pending && order in s.listed
  }

  /** Attempts whose send throws. */
  function Attempts(order: OrderId, n: nat): seq<Step> {
    seq(n, _ => Republish(order, RepublishDone, Throws))
  }

  lemma {:induction false} AttemptsGetStuck(s: State, order: OrderId, user: User, done: nat, more: nat)
    requires Stuck(s, order, user, done) && done + more <= MAX_REPUBLISH_COUNT
    ensures PossibleRun(s, Attempts(order, more)) && Stuck(After(s, Attempts(order, more)), order, user, done + more)
    decreases more
  {
    if more > 0 {
      var step := Republish(order, RepublishDone, Throws);
      assert Attempts(order, more) == [step] + Attempts(order, more - 1);
      assert Stuck(Next(s, step), order, user, done + 1);
      AttemptsGetStuck(Next(s, step), order, user, done + 1, more - 1);
    }
  }

  predicate Open(a: Activity) {
    a.begin.Some? && a.end.Some? && a.begin.value <= a.now <= a.end.value
  }

  /** Before a sale in which this request will be accepted. */
  predicate Awaits(s: State, user: User, order: OrderId) {
    Initial(s) && s.redis.stock > 0 && user !in s.redis.legacy && user !in s.db.rows.Values && order !in s.db.rows
  }

  lemma OneStep(s: State, step: Step, rest: seq<Step>)
    requires Possible(s, step) && PossibleRun(Next(s, step), rest)
    ensures PossibleRun(s, [step] + rest) && After(s, [step] + rest) == After(Next(s, step), rest)
  {
    assert ([step] + rest)[1..] == rest;
  }

  lemma {:induction false} RunFrom(s: State, steps: seq<Step>, rest: seq<Step>)
    requires PossibleRun(s, steps) && PossibleRun(After(s, steps), rest)
    ensures PossibleRun(s, steps + rest) && After(s, steps + rest) == After(After(s, steps), rest)
    decreases |steps|
  {
    hide Next, Possible;
    if steps == [] {
      assert steps + rest == rest;
    } else {
      RunFrom(Next(s, steps[0]), steps[1..], rest);
      assert (steps + rest)[1..] == steps[1..] + rest;
    }
  }

  /** The broker is down for the first send. */
  lemma GetsStuck(s: State, user: User, order: OrderId, a: Activity)
    requires Awaits(s, user, order) && Open(a)
    ensures var steps := [Request(user, order, a)] + ([FirstSend(order, Throws)] + ([ListDue({order})] + []));
            PossibleRun(s, steps) && Stuck(After(s, steps), order, user, 0)
  {
    var s1 := Next(s, Request(user, order, a));
    var s2 := Next(s1, FirstSend(order, Throws));
    OneStep(s2, ListDue({order}), []);
    OneStep(s1, FirstSend(order, Throws), [ListDue({order})] + []);
    OneStep(s, Request(user, order, a), [FirstSend(order, Throws)] + ([ListDue({order})] + []));
  }

  lemma StuckDies(s: State, order: OrderId, user: User)
    requires Stuck(s, order, user, MAX_REPUBLISH_COUNT)
    ensures var steps := [RepublisherDies(order)] + [];
            PossibleRun(s, steps) && order in After(s, steps).redis.data && !NotLost(After(s, steps), order)
  {
    OneStep(s, RepublisherDies(order), []);
    assert !HasCopy(s, order) && !OnTheWire(s, order);
  }

  /** The run of a task that dies after it has restored the reservation. */
  function RestoredAndGone(user: User, order: OrderId, a: Activity): seq<Step> {
    [Request(user, order, a)] + ([FirstSend(order, Throws)] + ([ListDue({order})] + []))
      + (Attempts(order, MAX_REPUBLISH_COUNT) + ([RepublisherDies(order)] + []))
  }

  /** The broker is down for the first send and for ten attempts to republish, then the task
      dies between restoring the reservation and marking the order: the order is lost. */
  lemma DeathAfterRestoreLoses(s: State, user: User, order: OrderId, a: Activity)
    requires Awaits(s, user, order) && Open(a)
    ensures PossibleRun(s, RestoredAndGone(user, order, a))
    ensures order in After(s, RestoredAndGone(user, order, a)).redis.data
    ensures !NotLost(After(s, RestoredAndGone(user, order, a)), order)
  {
    hide Stuck, NotLost, Next, Possible;
    var begin := [Request(user, order, a)] + ([FirstSend(order, Throws)] + ([ListDue({order})] + []));
    var attempts := Attempts(order, MAX_REPUBLISH_COUNT);
    GetsStuck(s, user, order, a);
    var s1 := After(s, begin);
    AttemptsGetStuck(s1, order, user, 0, MAX_REPUBLISH_COUNT);
    var s2 := After(s1, attempts);
    StuckDies(s2, order, user);
    RunFrom(s1, attempts, [RepublisherDies(order)] + []);
    RunFrom(s, begin, attempts + ([RepublisherDies(order)] + []));
  }

  /** The first send came back and is not acknowledged yet. */
  predicate Bounced(s: State, order: OrderId, user: User, id: SendId) {
    s.copies == map[] && s.sends == map[id := Send(order, user, Returned)] && user !in s.db.rows.Values &&
    order !in s.db.rows && order in s.redis.data && s.redis.data[order] == Data(Some(user), RouteFailed, 0) &&
    order in s.redis.pending && order in s.listed
  }

  lemma GetsBounced(s: State, user: User, order: OrderId, a: Activity)
    requires Awaits(s, user, order) && Open(a)
    ensures var steps := [Request(user, order, a)] + ([FirstSend(order, Leaves(0))] + ([Return(0)] + ([ListDue({order})] + [])));
            PossibleRun(s, steps) && Bounced(After(s, steps), order, user, 0)
  {
    var s1 := Next(s, Request(user, order, a));
    var s2 := Next(s1, FirstSend(order, Leaves(0)));
    var s3 := Next(s2, Return(0));
    OneStep(s3, ListDue({order}), []);
    OneStep(s2, Return(0), [ListDue({order})] + []);
    OneStep(s1, FirstSend(order, Leaves(0)), [Return(0)] + ([ListDue({order})] + []));
    OneStep(s, Request(user, order, a), [FirstSend(order, Leaves(0))] + ([Return(0)] + ([ListDue({order})] + [])));
  }

  lemma BouncedDies(s: State, order: OrderId, user: User, id: SendId)
    requires Bounced(s, order, user, id)
    ensures var steps := [RepublisherDies(order)] + ([Ack(id)] + []);
            PossibleRun(s, steps) && order in After(s, steps).redis.data && !NotLost(After(s, steps), order)
  {
    var s1 := Next(s, RepublisherDies(order));
    OneStep(s1, Ack(id), []);
    OneStep(s, RepublisherDies(order), [Ack(id)] + []);
    var s2 := Next(s1, Ack(id));
    assert !HasCopy(s2, order) && !OnTheWire(s2, order);
  }

  /** The run of a task that dies before it sends again. */
  function MarkedAndGone(user: User, order: OrderId, a: Activity): seq<Step> {
    [Request(user, order, a)] + ([FirstSend(order, Leaves(0))] + ([Return(0)] + ([ListDue({order})] + [])))
      + ([RepublisherDies(order)] + ([Ack(0)] + []))
  }

  /** The first send is returned, the task dies between marking the order and sending it again,
      and then the acknowledgement of the first send takes it out of the pending set: lost. */
  lemma DeathBeforeSendLoses(s: State, user: User, order: OrderId, a: Activity)
    requires Awaits(s, user, order) && Open(a)
    ensures PossibleRun(s, MarkedAndGone(user, order, a))
    ensures order in After(s, MarkedAndGone(user, order, a)).redis.data
    ensures !NotLost(After(s, MarkedAndGone(user, order, a)), order)
  {
    hide Bounced, NotLost, Next, Possible;
    var begin := [Request(user, order, a)] + ([FirstSend(order, Leaves(0))] + ([Return(0)] + ([ListDue({order})] + [])));
    GetsBounced(s, user, order, a);
    BouncedDies(After(s, begin), order, user, 0);
    RunFrom(s, begin, [RepublisherDies(order)] + ([Ack(0)] + []));
  }
}
