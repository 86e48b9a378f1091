/** What every run of the order pipeline keeps: accepted orders are not lost, a completed
    order has its row, stock is conserved in Redis and in MySQL. */
module OrderSafety {
  import opened Orders

  // ------------------------------------------------------------ the invariant

  predicate HasRow(s: State, user: User) {
    user in s.db.rows.Values
  }

  /** A copy is queued, waits for its retry, is being consumed, or is in the failed or the
      parking queue. */
  predicate HasCopy(s: State, order: OrderId) {
    exists t | t in s.copies :: s.copies[t].order == order
  }

  predicate OnTheWire(s: State, order: OrderId) {
    exists i | i in s.sends :: s.sends[i].order == order && s.sends[i].state == OnWire
  }

  /** The broker has taken or returned a send but its confirm has not been handled. */
  predicate AwaitsConfirm(s: State, order: OrderId) {
    exists i | i in s.sends :: s.sends[i].order == order && s.sends[i].state != OnWire
  }

  predicate Covered(s: State, order: OrderId, user: User) {
    HasRow(s, user) || HasCopy(s, order) || OnTheWire(s, order)
  }

  /** What the status of an order says about where the order is, even when a republishing
      task has died: a pending order may be taken off by an acknowledgement only when something
      else covers it, unless it is being republished. */
  predicate Healthy(s: State, order: OrderId)
    requires order in s.redis.data
  {
    var d := s.redis.data[order];
    d.user.Some? &&
    match d.status
    case OrderCreated => HasRow(s, d.user.value)
    case Pending => order in s.redis.pending ==> Covered(s, order, d.user.value) || !AwaitsConfirm(s, order)
    case Sending => order in s.redis.pending ==> Covered(s, order, d.user.value)
    case Sent => order in s.redis.pending ==> Covered(s, order, d.user.value)
    case Consuming => order in s.redis.pending ==> Covered(s, order, d.user.value)
    case _ => true
  }

  /** An accepted order has a row for its user, or is marked as failed, or is in the pending
      set, or has a copy in some queue or on the wire. */
  predicate NotLost(s: State, order: OrderId) {
    order in s.redis.data && s.redis.data[order].user.Some? &&
    (s.redis.data[order].status == Failed || order in s.redis.pending ||
     Covered(s, order, s.redis.data[order].user.value))
  }

  /** An order that is being republished is covered. */
  predicate Steady(s: State, order: OrderId) {
    order in s.redis.data && s.redis.data[order].user.Some? &&
    (s.redis.data[order].status == Republishing ==> Covered(s, order, s.redis.data[order].user.value))
  }

  /** The order fares no worse than before, or well when it is new. */
  predicate Carried(s: State, s': State, order: OrderId) {
    ((order in s.redis.data ==> NotLost(s, order)) ==> NotLost(s', order)) &&
    ((order in s.redis.data ==> Steady(s, order)) ==> Steady(s', order))
  }

  ghost predicate AllCarried(s: State, s': State) {
    forall o | o in s'.redis.data :: Carried(s, s', o)
  }

  ghost predicate OthersCarried(s: State, s': State, order: OrderId) {
    forall o | o in s'.redis.data && o != order :: Carried(s, s', o)
  }

  lemma CarriedTwice(s: State, s': State, s'': State)
    requires AllCarried(s, s') && AllCarried(s', s'') && s.redis.data.Keys <= s'.redis.data.Keys
    ensures AllCarried(s, s'')
  {
    forall o | o in s''.redis.data ensures Carried(s, s'', o) {
      assert Carried(s', s'', o);
      assert o in s'.redis.data ==> Carried(s, s', o);
    }
  }

  /** A covered order, or a failed one, is as well off as can be. */
  lemma CoveredIsFine(s: State, s': State, order: OrderId, user: User)
    requires Belongs(s', order, user)
    requires Covered(s', order, user) || s'.redis.data[order].status == Failed
    ensures Carried(s, s', order)
    ensures s'.redis.data[order].status == OrderCreated ==> (Healthy(s', order) <==> HasRow(s', user))
    ensures s'.redis.data[order].status != OrderCreated ==> Healthy(s', order)
  {
    hide Covered;
  }

  /** So is one that is pending again. */
  lemma PendingIsFine(s: State, s': State, order: OrderId, user: User)
    requires Belongs(s', order, user) && order in s'.redis.pending
    requires s'.redis.data[order].status in {BrokerNack, RouteFailed}
    ensures Carried(s, s', order) && Healthy(s', order)
  {
    hide Covered;
  }

  /** Whoever speaks of an order knows its user. */
  predicate Belongs(s: State, order: OrderId, user: User) {
    order in s.redis.data && s.redis.data[order].user == Some(user)
  }

  predicate KnownSends(s: State) {
    forall i | i in s.sends :: Belongs(s, s.sends[i].order, s.sends[i].user)
  }

  predicate KnownCopies(s: State) {
    forall t | t in s.copies :: Belongs(s, s.copies[t].order, s.copies[t].user)
  }

  predicate KnownRows(s: State) {
    forall o | o in s.db.rows && o in s.redis.data :: Belongs(s, o, s.db.rows[o])
  }

  predicate KnownOrders(s: State) {
    (forall o | o in s.toSend :: Belongs(s, o, s.toSend[o])) &&
    s.listed <= s.redis.data.Keys && s.redis.pending <= s.redis.data.Keys
  }

  predicate Known(s: State) {
    KnownSends(s) && KnownCopies(s) && KnownRows(s) && KnownOrders(s)
  }

  predicate Invariant(s: State) {
    Known(s) && OneRowEach(s.db) && forall o | o in s.redis.data :: Healthy(s, o)
  }

  lemma InitialInvariant(s: State)
    requires Initial(s)
    ensures Invariant(s)
  {
  }

  // ------------------------------------------------------------ one order at a time

  /** The step is about this order: entries, sends, copies and rows of others are as before. */
  ghost predicate OnlyAbout(s: State, s': State, order: OrderId) {
    s'.redis.data.Keys == s.redis.data.Keys + {order} &&
    (forall o | o in s.redis.data && o != order :: s'.redis.data[o] == s.redis.data[o]) &&
    (forall o | o != order :: o in s'.redis.pending <==> o in s.redis.pending) &&
    (forall i | i in s.sends && s.sends[i].order != order :: i in s'.sends && s'.sends[i] == s.sends[i]) &&
    (forall i | i in s'.sends && s'.sends[i].order != order :: i in s.sends && s.sends[i] == s'.sends[i]) &&
    (forall t | t in s.copies && s.copies[t].order != order :: t in s'.copies && s'.copies[t] == s.copies[t]) &&
    (forall t | t in s'.copies && s'.copies[t].order != order :: t in s.copies && s.copies[t] == s'.copies[t]) &&
    (forall o | o in s.db.rows :: o in s'.db.rows && s'.db.rows[o] == s.db.rows[o]) &&
    s'.db.rows.Keys <= s.db.rows.Keys + {order}
  }

  lemma RowsKept(s: State, s': State, user: User)
    requires forall o | o in s.db.rows :: o in s'.db.rows && s'.db.rows[o] == s.db.rows[o]
    ensures HasRow(s, user) ==> HasRow(s', user)
  {
    if HasRow(s, user) {
      var o :| o in s.db.rows && s.db.rows[o] == user;
      assert s'.db.rows[o] == user;
    }
  }

  lemma OtherStaysCovered(s: State, s': State, order: OrderId, o: OrderId, user: User)
    requires OnlyAbout(s, s', order) && o != order
    ensures Covered(s, o, user) ==> Covered(s', o, user)
    ensures HasRow(s, user) ==> HasRow(s', user)
    ensures AwaitsConfirm(s', o) ==> AwaitsConfirm(s, o)
  {
    RowsKept(s, s', user);
    if HasCopy(s, o) {
      var t :| t in s.copies && s.copies[t].order == o;
      assert t in s'.copies && s'.copies[t].order == o;
    }
    if OnTheWire(s, o) {
      var i :| i in s.sends && s.sends[i].order == o && s.sends[i].state == OnWire;
      assert i in s'.sends && s'.sends[i].order == o;
    }
    if AwaitsConfirm(s', o) {
      var i :| i in s'.sends && s'.sends[i].order == o && s'.sends[i].state != OnWire;
      assert i in s.sends && s.sends[i].order == o;
    }
  }

  /** The other orders stay as healthy and as safe as they were. */
  lemma OtherStaysHealthy(s: State, s': State, order: OrderId, o: OrderId)
    requires OnlyAbout(s, s', order) && o in s.redis.data && o != order && Healthy(s, o)
    ensures Healthy(s', o) && Carried(s, s', o)
  {
    OtherStaysCovered(s, s', order, o, s.redis.data[o].user.value);
    hide Covered, HasRow, AwaitsConfirm;
  }

  /** Everything in the state that speaks of the order gives it this user. */
  predicate KnownAbout(s: State, order: OrderId, user: User) {
    Belongs(s, order, user) &&
    (forall i | i in s.sends && s.sends[i].order == order :: s.sends[i].user == user) &&
    (forall t | t in s.copies && s.copies[t].order == order :: s.copies[t].user == user) &&
    (order in s.toSend ==> s.toSend[order] == user) && (order in s.db.rows ==> s.db.rows[order] == user)
  }

  /** What is left to check of a step that is about one order. */
  lemma Settle(s: State, s': State, order: OrderId, user: User)
    requires Invariant(s) && OnlyAbout(s, s', order)
    requires forall o | o in s'.toSend && o != order :: o in s.toSend && s'.toSend[o] == s.toSend[o]
    requires s'.listed <= s.listed + {order}
    requires KnownAbout(s', order, user) && OneRowEach(s'.db) && Healthy(s', order)
    ensures Invariant(s') && OthersCarried(s, s', order)
  {
    assert Known(s') by {
      hide Healthy;
      assert KnownSends(s');
      assert KnownCopies(s');
      assert KnownRows(s');
      assert KnownOrders(s');
    }
    hide Known;
    forall o | o in s'.redis.data && o != order ensures Healthy(s', o) && Carried(s, s', o) {
      OtherStaysHealthy(s, s', order, o);
    }
  }

  /** The same for a step after which the order is no worse off. */
  lemma SettleCarried(s: State, s': State, order: OrderId, user: User)
    requires Invariant(s) && OnlyAbout(s, s', order)
    requires forall o | o in s'.toSend && o != order :: o in s.toSend && s'.toSend[o] == s.toSend[o]
    requires s'.listed <= s.listed + {order}
    requires KnownAbout(s', order, user) && OneRowEach(s'.db) && Healthy(s', order)
    requires Carried(s, s', order)
    ensures Invariant(s') && AllCarried(s, s')
  {
    hide Carried;
    Settle(s, s', order, user);
  }

  /** A change in Redis that is about one order and keeps its user. */
  ghost predicate Touches(r: Redis, r': Redis, order: OrderId) {
    order in r.data && r'.data.Keys == r.data.Keys && r'.data[order].user == r.data[order].user &&
    (forall o | o in r.data && o != order :: r'.data[o] == r.data[o]) &&
    (forall o | o != order :: o in r'.pending <==> o in r.pending) &&
    r'.pending <= r'.data.Keys + r.pending
  }

  lemma SendFailedTouches(r: Redis, order: OrderId)
    requires order in r.data
    ensures var r' := SendFailed(r, order);
            Touches(r, r', order) && r'.data[order].status == BrokerNack && order in r'.pending
  {
  }

  lemma MarkedFailedTouches(r: Redis, order: OrderId)
    requires order in r.data
    ensures var r' := MarkedFailed(r, order); Touches(r, r', order) && r'.data[order].status == Failed
  {
  }

  lemma PendingRemovedTouches(r: Redis, order: OrderId)
    requires order in r.data
    ensures var r' := PendingRemoved(r, order); Touches(r, r', order) && r'.data[order].status == OrderCreated
  {
  }

  lemma BeforeRepublishTouches(r: Redis, order: OrderId)
    requires order in r.data
    ensures var r' := BeforeRepublish(r, order); Touches(r, r', order) && r'.data[order].status == Republishing
  {
  }

  lemma ConsumingTouches(r: Redis, order: OrderId)
    requires order in r.data
    ensures var r' := MarkedConsuming(r, order);
            Touches(r, r', order) &&
            (r'.data[order].status == Consuming ||
             (r' == r && (r.data[order].status == OrderCreated || r.data[order].status == Failed)))
  {
  }

  lemma TouchesNothing(r: Redis, order: OrderId)
    requires order in r.data
    ensures Touches(r, r, order)
  {
  }

  lemma RestoreTouches(r: Redis, user: User, order: OrderId)
    requires order in r.data
    ensures var r' := RestoreScript(r, user, order).1; Touches(r, r', order) && r'.data == r.data
  {
  }

  lemma TouchesTwice(r: Redis, r': Redis, r'': Redis, order: OrderId)
    requires Touches(r, r', order) && Touches(r', r'', order)
    ensures Touches(r, r'', order)
  {
  }

  /** What is left to check of a step that only writes to Redis. */
  lemma SettleRedis(s: State, s': State, order: OrderId, user: User)
    requires Invariant(s) && Belongs(s, order, user) && Touches(s.redis, s'.redis, order)
    requires s' == s.(redis := s'.redis) && Healthy(s', order) && Carried(s, s', order)
    ensures Invariant(s') && Belongs(s', order, user) && AllCarried(s, s')
  {
    hide Carried, Healthy;
    SettleCarried(s, s', order, user);
  }

  // ------------------------------------------------------------ the steps

  lemma RequestKeeps(s: State, user: User, order: OrderId, activity: Activity)
    requires Invariant(s) && Possible(s, Request(user, order, activity))
    ensures var s' := Next(s, Request(user, order, activity));
            Invariant(s') && AllCarried(s, s')
  {
    var (reply, redis) := SeckillScript(s.redis, user, order, activity);
    var s' := Next(s, Request(user, order, activity));
    if reply == Accepted {
      NewOrder(s, order);
      OneRow(s);
      hide Invariant, Carried, OnlyAbout, KnownAbout, Healthy;
      ReservedAbout(s, s', user, order, redis);
      SettleCarried(s, s', order, user);
    } else {
      Unmoved(s, s');
    }
  }

  /** Nothing speaks of an order that has not been accepted. */
  lemma NewOrder(s: State, order: OrderId)
    requires Invariant(s) && order !in s.redis.data
    ensures forall i | i in s.sends :: s.sends[i].order != order
    ensures forall t | t in s.copies :: s.copies[t].order != order
    ensures order !in s.redis.pending
  {
    assert forall i | i in s.sends :: s.sends[i].order in s.redis.data;
    assert forall t | t in s.copies :: s.copies[t].order in s.redis.data;
  }

  lemma ReservedAbout(s: State, s': State, user: User, order: OrderId, redis: Redis)
    requires order !in s.redis.data && order !in s.db.rows
    requires forall i | i in s.sends :: s.sends[i].order != order
    requires forall t | t in s.copies :: s.copies[t].order != order
    requires redis == s.redis.(stock := redis.stock, reservation := redis.reservation, pending := s.redis.pending + {order},
                               data := s.redis.data[order := Data(Some(user), Pending, 0)])
    requires s' == s.(redis := redis, toSend := s.toSend[order := user])
    ensures OnlyAbout(s, s', order) && KnownAbout(s', order, user) && Healthy(s', order) && Carried(s, s', order)
  {
  }

  /** Steps that leave Redis, MySQL, sends and copies alone. */
  lemma Unmoved(s: State, s': State)
    requires s'.redis == s.redis && s'.db == s.db && s'.sends == s.sends && s'.copies == s.copies
    requires Invariant(s) && Known(s')
    ensures Invariant(s') && AllCarried(s, s')
  {
    forall o | o in s'.redis.data ensures Healthy(s', o) && Carried(s, s', o) {
      assert Healthy(s, o);
    }
  }

  lemma SentOutKeeps(s: State, order: OrderId, user: User, sending: Sending)
    requires Invariant(s) && Belongs(s, order, user) && FreshSend(s, sending)
    ensures Invariant(SentOut(s, order, user, sending)) && AllCarried(s, SentOut(s, order, user, sending))
  {
    var s' := SentOut(s, order, user, sending);
    match sending
    case Throws =>
      SendFailedTouches(s.redis, order);
      PendingIsFine(s, s', order, user);
      SettleRedis(s, s', order, user);
    case Leaves(id) => SendingKeeps(s, s', order, user, id);
    case LeavesButThrows(id) =>
      SendFailedTouches(s.redis, order);
      SendingKeeps(s, s', order, user, id);
  }

  /** A new send, whatever is written to Redis about its order besides. */
  lemma SendingKeeps(s: State, s': State, order: OrderId, user: User, id: SendId)
    requires Invariant(s) && Belongs(s, order, user) && id !in s.sends
    requires s' == s.(redis := s'.redis, sends := s.sends[id := Send(order, user, OnWire)])
    requires s'.redis == s.redis || (Touches(s.redis, s'.redis, order) && s'.redis.data[order].status != OrderCreated)
    ensures Invariant(s') && AllCarried(s, s')
  {
    if s'.redis == s.redis {
      TouchesNothing(s.redis, order);
    }
    assert OnTheWire(s', order) by {
      assert s'.sends[id].order == order && s'.sends[id].state == OnWire;
    }
    SameUser(s, order, user);
    assert Healthy(s, order);
    CoveredIsFine(s, s', order, user);
    assert HasRow(s, user) ==> HasRow(s', user);
    OneRow(s);
    SendOnlyAbout(s, s', order, user, id);
    hide Healthy, Carried, Invariant, HasRow, OnTheWire;
    SettleCarried(s, s', order, user);
  }

  lemma SendOnlyAbout(s: State, s': State, order: OrderId, user: User, id: SendId)
    requires KnownAbout(s, order, user) && id !in s.sends
    requires s' == s.(redis := s'.redis, sends := s.sends[id := Send(order, user, OnWire)])
    requires Touches(s.redis, s'.redis, order)
    ensures OnlyAbout(s, s', order) && KnownAbout(s', order, user)
  {
  }

  lemma RouteKeeps(s: State, id: SendId, tag: Tag)
    requires Invariant(s) && Possible(s, Route(id, tag))
    ensures Invariant(Next(s, Route(id, tag))) && AllCarried(s, Next(s, Route(id, tag)))
  {
    var s' := Next(s, Route(id, tag));
    var m := s.sends[id];
    assert HasCopy(s', m.order) by {
      assert s'.copies[tag].order == m.order;
    }
    assert Healthy(s, m.order) && Belongs(s, m.order, m.user);
    assert HasRow(s, m.user) <==> HasRow(s', m.user);
    CoveredIsFine(s, s', m.order, m.user);
    SameUser(s, m.order, m.user);
    OneRow(s);
    RouteOnlyAbout(s, id, tag);
    hide Invariant, Carried, HasRow, OnlyAbout, KnownAbout;
    assert Healthy(s', m.order);
    hide Healthy;
    SettleCarried(s, s', m.order, m.user);
  }

  lemma RouteOnlyAbout(s: State, id: SendId, tag: Tag)
    requires Possible(s, Route(id, tag)) && KnownAbout(s, s.sends[id].order, s.sends[id].user)
    ensures var m, s' := s.sends[id], Next(s, Route(id, tag)); OnlyAbout(s, s', m.order) && KnownAbout(s', m.order, m.user)
  {
  }

  lemma ReturnKeeps(s: State, id: SendId)
    requires Invariant(s) && Possible(s, Return(id))
    ensures Invariant(Next(s, Return(id))) && AllCarried(s, Next(s, Return(id)))
  {
    var m := s.sends[id];
    var s' := Next(s, Return(id));
    assert Belongs(s, m.order, m.user);
    RouteFailureTouches(s.redis, m.order, m.user);
    SameUser(s, m.order, m.user);
    OneRow(s);
    hide RouteFailure;
    PendingIsFine(s, s', m.order, m.user);
    ConfirmOnlyAbout(s, s', id);
    hide Invariant, Healthy, Carried;
    SettleCarried(s, s', m.order, m.user);
  }

  /** A send that is resolved in some way. */
  lemma ConfirmOnlyAbout(s: State, s': State, id: SendId)
    requires id in s.sends && KnownAbout(s, s.sends[id].order, s.sends[id].user)
    requires Touches(s.redis, s'.redis, s.sends[id].order)
    requires s' == s.(redis := s'.redis, sends := s'.sends)
    requires s'.sends == s.sends - {id} || s'.sends == s.sends[id := s.sends[id].(state := Returned)]
    ensures OnlyAbout(s, s', s.sends[id].order) && KnownAbout(s', s.sends[id].order, s.sends[id].user)
  {
  }

  lemma NackKeeps(s: State, id: SendId)
    requires Invariant(s) && Possible(s, Nack(id))
    ensures Invariant(Next(s, Nack(id))) && AllCarried(s, Next(s, Nack(id)))
  {
    var m := s.sends[id];
    var s' := Next(s, Nack(id));
    assert Belongs(s, m.order, m.user);
    SendFailedTouches(s.redis, m.order);
    SameUser(s, m.order, m.user);
    OneRow(s);
    hide SendFailed;
    PendingIsFine(s, s', m.order, m.user);
    ConfirmOnlyAbout(s, s', id);
    hide Invariant, Healthy, Carried;
    SettleCarried(s, s', m.order, m.user);
  }

  /** An acknowledgement of a send that is not on the wire any more leaves the order as
      covered as it was. */
  lemma AckCovers(s: State, id: SendId, user: User)
    requires Possible(s, Ack(id))
    ensures Covered(s, s.sends[id].order, user) <==> Covered(Next(s, Ack(id)), s.sends[id].order, user)
  {
    var order, s' := s.sends[id].order, Next(s, Ack(id));
    if OnTheWire(s, order) {
      var i :| i in s.sends && s.sends[i].order == order && s.sends[i].state == OnWire;
      assert i in s'.sends && s'.sends[i] == s.sends[i];
    }
    if OnTheWire(s', order) {
      var i :| i in s'.sends && s'.sends[i].order == order && s'.sends[i].state == OnWire;
      assert i in s.sends && s.sends[i] == s'.sends[i];
    }
    assert s'.copies == s.copies && s'.db == s.db;
  }

  /** The acknowledgement takes the order out of the pending set. For an order in its first
      send the routed send covers it; one that has been republished since is lost unless
      something covers it. */
  lemma AckKeeps(s: State, id: SendId)
    requires Invariant(s) && Possible(s, Ack(id))
    ensures var order, s' := s.sends[id].order, Next(s, Ack(id));
            Invariant(s') && OthersCarried(s, s', order) && (Steady(s, order) ==> Carried(s, s', order)) &&
            (NotLost(s, order) ==> (NotLost(s', order) <==> Steady(s, order)))
  {
    var m, s' := s.sends[id], Next(s, Ack(id));
    assert Belongs(s, m.order, m.user) && Healthy(s, m.order) && AwaitsConfirm(s, m.order);
    SendSucceededTouches(s.redis, m.order);
    SameUser(s, m.order, m.user);
    OneRow(s);
    hide SendSucceeded;
    AckCovers(s, id, m.user);
    AckedHealthy(s, s', id);
    ConfirmOnlyAbout(s, s', id);
    hide Invariant, Healthy, Carried, Covered, NotLost;
    Settle(s, s', m.order, m.user);
  }

  lemma AckedHealthy(s: State, s': State, id: SendId)
    requires Possible(s, Ack(id)) && s' == Next(s, Ack(id))
    requires var m := s.sends[id];
             Belongs(s, m.order, m.user) && Healthy(s, m.order) && AwaitsConfirm(s, m.order) &&
             (Covered(s, m.order, m.user) <==> Covered(s', m.order, m.user))
    ensures var order := s.sends[id].order;
            Healthy(s', order) && (Steady(s, order) ==> Carried(s, s', order)) &&
            (NotLost(s, order) ==> (NotLost(s', order) <==> Steady(s, order)))
  {
    assert s'.db == s.db;
    assert HasRow(s, s.sends[id].user) <==> HasRow(s', s.sends[id].user);
    assert AwaitsConfirm(s', s.sends[id].order) ==> AwaitsConfirm(s, s.sends[id].order);
    hide Covered, HasRow, AwaitsConfirm;
  }

  /** A dying republisher takes the order out of the pending set, or writes the status that lets
      a later acknowledgement do so. */
  lemma DeathKeeps(s: State, order: OrderId)
    requires Invariant(s) && Possible(s, RepublisherDies(order))
    ensures var s' := Next(s, RepublisherDies(order));
            Invariant(s') && OthersCarried(s, s', order) &&
            (NotLost(s, order) ==> (NotLost(s', order) <==> !DiesBadly(s, order)))
  {
    var s' := Next(s, RepublisherDies(order));
    assert Healthy(s, order);
    var user := s.redis.data[order].user.value;
    DeathTouches(s, order, user);
    SameUser(s, order, user);
    OneRow(s);
    assert order in s.db.rows ==> HasRow(s, user);
    hide HasRow, Invariant, Interrupted, OnlyAbout, Touches;
    DiedHealthy(s, s', order, user);
    hide Healthy, Carried, NotLost, DiesBadly;
    RedisOnlyAbout(s, s', order, user);
    Settle(s, s', order, user);
  }

  lemma RedisOnlyAbout(s: State, s': State, order: OrderId, user: User)
    requires s' == s.(redis := s'.redis) && Touches(s.redis, s'.redis, order) && KnownAbout(s, order, user)
    ensures OnlyAbout(s, s', order) && KnownAbout(s', order, user)
  {
  }

  lemma DeathTouches(s: State, order: OrderId, user: User)
    requires Belongs(s, order, user)
    ensures Touches(s.redis, Interrupted(s, order).redis, order)
    ensures Interrupted(s, order) == s.(redis := Interrupted(s, order).redis)
  {
    RestoreTouches(s.redis, user, order);
    BeforeRepublishTouches(s.redis, order);
    TouchesNothing(s.redis, order);
    hide Touches, RestoreScript, BeforeRepublish;
  }

  /** Nothing but the pending set, which the dying task clears, or the mark of a failure, which
      it overwrites, keeps the order. */
  predicate DiesBadly(s: State, order: OrderId) {
    order in s.redis.data && s.redis.data[order].user.Some? &&
    !Covered(s, order, s.redis.data[order].user.value) &&
    if s.redis.data[order].retryCount >= MAX_REPUBLISH_COUNT then s.redis.data[order].status != Failed
    else order !in s.redis.pending
  }

  lemma DiedHealthy(s: State, s': State, order: OrderId, user: User)
    requires Belongs(s, order, user) && Healthy(s, order) && s' == Interrupted(s, order)
    requires order in s.db.rows ==> HasRow(s, user)
    ensures Healthy(s', order) && (NotLost(s, order) ==> (NotLost(s', order) <==> !DiesBadly(s, order)))
  {
    assert s' == s.(redis := s'.redis);
    assert Covered(s', order, user) <==> Covered(s, order, user);
    assert HasRow(s', user) <==> HasRow(s, user);
    assert HasRow(s, user) ==> Covered(s, order, user);
    assert AwaitsConfirm(s', order) <==> AwaitsConfirm(s, order);
    hide Covered, HasRow, AwaitsConfirm;
  }

  lemma SendSucceededTouches(r: Redis, order: OrderId)
    requires order in r.data
    ensures Touches(r, SendSucceeded(r, order), order)
  {
  }

  lemma RouteFailureTouches(r: Redis, order: OrderId, user: User)
    requires order in r.data && r.data[order].user == Some(user)
    ensures var r' := RouteFailure(r, order, user);
            Touches(r, r', order) && r'.data[order].status == RouteFailed && order in r'.pending
  {
  }

  /** The delivery is marked. */
  lemma ConsumingKeeps(s: State, tag: Tag)
    requires Invariant(s) && InPlace(s, tag, OrderQueue)
    ensures var order, user := s.copies[tag].order, s.copies[tag].user;
            var marked := s.(redis := MarkedConsuming(s.redis, order));
            Invariant(marked) && AllCarried(s, marked) && Belongs(marked, order, user) && HasCopy(marked, order)
  {
    var order, user := s.copies[tag].order, s.copies[tag].user;
    var marked := s.(redis := MarkedConsuming(s.redis, order));
    assert Belongs(s, order, user) && Healthy(s, order);
    ConsumingTouches(s.redis, order);
    assert HasCopy(marked, order) by {
      assert marked.copies[tag].order == order;
    }
    hide MarkedConsuming;
    assert HasRow(marked, user) <==> HasRow(s, user);
    CoveredIsFine(s, marked, order, user);
    hide Carried, HasCopy, HasRow;
    assert Healthy(marked, order);
    hide Healthy;
    SettleRedis(s, marked, order, user);
  }

  /** The user has a row, and the order is marked as created. */
  lemma RemovingKeeps(s: State, order: OrderId, user: User)
    requires Invariant(s) && Belongs(s, order, user) && HasRow(s, user)
    ensures var done := s.(redis := PendingRemoved(s.redis, order));
            Invariant(done) && AllCarried(s, done) && Belongs(done, order, user) && HasRow(done, user)
  {
    var done := s.(redis := PendingRemoved(s.redis, order));
    PendingRemovedTouches(s.redis, order);
    hide PendingRemoved;
    assert HasRow(done, user);
    CoveredIsFine(s, done, order, user);
    hide Healthy, Carried, HasRow;
    SettleRedis(s, done, order, user);
  }

  /** A state on the way of a delivery. */
  ghost predicate Leads(s: State, s': State, order: OrderId, user: User) {
    Invariant(s') && AllCarried(s, s') && Belongs(s', order, user) && s'.copies == s.copies &&
    s.redis.data.Keys <= s'.redis.data.Keys
  }

  lemma LeadsNowhere(s: State, tag: Tag)
    requires Invariant(s) && tag in s.copies
    ensures Leads(s, s, s.copies[tag].order, s.copies[tag].user)
  {
    assert Belongs(s, s.copies[tag].order, s.copies[tag].user);
    AllCarriedItself(s);
    hide Invariant, AllCarried;
  }

  lemma LeadsToMark(s: State, tag: Tag)
    requires Invariant(s) && InPlace(s, tag, OrderQueue)
    ensures var order, user := s.copies[tag].order, s.copies[tag].user;
            var marked := s.(redis := MarkedConsuming(s.redis, order));
            Leads(s, marked, order, user) && HasCopy(marked, order)
  {
    ConsumingKeeps(s, tag);
    ConsumingKnows(s.redis, s.copies[tag].order);
    hide Invariant, AllCarried, MarkedConsuming, HasCopy;
  }

  lemma ConsumingKnows(r: Redis, order: OrderId)
    ensures r.data.Keys <= MarkedConsuming(r, order).data.Keys
    ensures r.data.Keys <= PendingRemoved(r, order).data.Keys
  {
  }

  lemma LeadsToRow(s: State, marked: State, order: OrderId, user: User)
    requires Leads(s, marked, order, user) && HasCopy(marked, order)
    requires CreateOrder(marked.db, order, user).0 != Refused
    ensures var inserted := marked.(db := CreateOrder(marked.db, order, user).1);
            var done := inserted.(redis := PendingRemoved(inserted.redis, order));
            Leads(s, inserted, order, user) && Leads(s, done, order, user) && HasRow(done, user)
  {
    var inserted := marked.(db := CreateOrder(marked.db, order, user).1);
    var done := inserted.(redis := PendingRemoved(inserted.redis, order));
    hide Invariant, AllCarried, PendingRemoved, HasRow, HasCopy, CreateOrder, Belongs;
    CreatedKeeps(marked, order, user);
    RemovingKeeps(inserted, order, user);
    ConsumingKnows(inserted.redis, order);
    CarriedTwice(s, marked, inserted);
    CarriedTwice(s, inserted, done);
  }

  /** What a delivery does to Redis and MySQL, before anything happens to its copy: if it was
      handled, the user has a row. */
  lemma ProcessedKeeps(s: State, tag: Tag, fault: Fault)
    requires Invariant(s) && InPlace(s, tag, OrderQueue)
    ensures var (outcome, done) := Processed(s, s.copies[tag].order, s.copies[tag].user, fault);
            Leads(s, done, s.copies[tag].order, s.copies[tag].user) &&
            (outcome == Handled ==> HasRow(done, s.copies[tag].user))
  {
    var order, user := s.copies[tag].order, s.copies[tag].user;
    var marked := s.(redis := MarkedConsuming(s.redis, order));
    LeadsNowhere(s, tag);
    LeadsToMark(s, tag);
    ProcessedStates(s, order, user, fault);
    hide Invariant, Leads, MarkedConsuming, PendingRemoved, HasRow, CreateOrder, HasCopy, Processed;
    if CreateOrder(s.db, order, user).0 != Refused {
      LeadsToRow(s, marked, order, user);
    }
  }

  lemma ProcessedStates(s: State, order: OrderId, user: User, fault: Fault)
    ensures var (outcome, end) := Processed(s, order, user, fault);
            var (creation, db) := CreateOrder(s.db, order, user);
            var marked := s.(redis := MarkedConsuming(s.redis, order));
            var inserted := marked.(db := db);
            var done := inserted.(redis := PendingRemoved(inserted.redis, order));
            (end == s || end == marked || (creation != Refused && (end == inserted || end == done))) &&
            (outcome == Handled ==> creation != Refused && end == done)
  {
    hide MarkedConsuming, PendingRemoved, CreateOrder;
  }

  lemma AllCarriedItself(s: State)
    ensures AllCarried(s, s)
  {
  }

  lemma CreatedKeeps(s: State, order: OrderId, user: User)
    requires Invariant(s) && Belongs(s, order, user) && HasCopy(s, order)
    requires CreateOrder(s.db, order, user).0 != Refused
    ensures var s' := s.(db := CreateOrder(s.db, order, user).1);
            Invariant(s') && AllCarried(s, s') && HasRow(s', user) && Belongs(s', order, user)
  {
    var (creation, db) := CreateOrder(s.db, order, user);
    var s' := s.(db := db);
    SameUser(s, order, user);
    if creation == Created {
      assert HasRow(s', user) by {
        assert db.rows[order] == user;
      }
      RowsKept(s, s', user);
      CoveredIsFine(s, s', order, user);
      hide Healthy, Carried, HasRow;
      SettleCarried(s, s', order, user);
    } else {
      assert s' == s;
      SameUserRow(s, order, user);
      AllCarriedItself(s);
    }
  }

  lemma SameUserRow(s: State, order: OrderId, user: User)
    requires KnownAbout(s, order, user) && CreateOrder(s.db, order, user).0 == Duplicate
    ensures HasRow(s, user)
  {
  }

  /** The copy with this tag is moved, under this tag or a new one, or dropped. */
  ghost predicate MovesCopy(copies: map<Tag, Copy>, copies': map<Tag, Copy>, tag: Tag)
    requires tag in copies
  {
    (forall t | t in copies && t != tag :: t in copies' && copies'[t] == copies[t]) &&
    (forall t | t in copies' && (t == tag || t !in copies) ::
       copies'[t].order == copies[tag].order && copies'[t].user == copies[tag].user)
  }

  lemma MovedOnlyAbout(s: State, s': State, tag: Tag, order: OrderId, user: User)
    requires tag in s.copies && s.copies[tag].order == order && s.copies[tag].user == user
    requires s' == s.(copies := s'.copies) && MovesCopy(s.copies, s'.copies, tag) && KnownAbout(s, order, user)
    ensures OnlyAbout(s, s', order) && KnownAbout(s', order, user)
  {
  }

  /** A copy may be moved, or dropped when its user has a row or the order is marked as failed. */
  lemma CopyKeeps(s: State, s': State, tag: Tag, order: OrderId, user: User)
    requires Invariant(s) && tag in s.copies && s.copies[tag].order == order && s.copies[tag].user == user
    requires s' == s.(copies := s'.copies) && MovesCopy(s.copies, s'.copies, tag)
    requires HasCopy(s', order) || HasRow(s, user) || s.redis.data[order].status == Failed
    ensures Invariant(s') && AllCarried(s, s')
  {
    assert Belongs(s, order, user) && Healthy(s, order);
    assert HasRow(s, user) <==> HasRow(s', user);
    SameUser(s, order, user);
    OneRow(s);
    CoveredIsFine(s, s', order, user);
    MovedOnlyAbout(s, s', tag, order, user);
    hide Carried, HasRow, HasCopy, Invariant, OnlyAbout, MovesCopy;
    assert Healthy(s', order);
    hide Healthy;
    SettleCarried(s, s', order, user);
  }

  /** What becomes of the copy that was delivered. */
  lemma ConsumedCopy(s: State, tag: Tag, fault: Fault, forward: Forward)
    requires Possible(s, Consume(tag, fault, forward))
    ensures var (outcome, done) := Processed(s, s.copies[tag].order, s.copies[tag].user, fault);
            var s' := Consumed(s, tag, fault, forward);
            s' == done.(copies := s'.copies) && MovesCopy(s.copies, s'.copies, tag) &&
            (outcome != Handled ==> HasCopy(s', s.copies[tag].order))
  {
    hide Processed;
    var c := s.copies[tag];
    var outcome := Processed(s, c.order, c.user, fault).0;
    var s' := Consumed(s, tag, fault, forward);
    assert s'.copies == Settled(s.copies, tag, outcome, forward);
    if outcome != Handled {
      var t := if outcome == Caught && c.rejections >= MAX_RETRY_COUNT && forward.Confirmed? then forward.tag else tag;
      assert s'.copies[t].order == c.order;
    }
  }

  lemma ConsumeKeeps(s: State, tag: Tag, fault: Fault, forward: Forward)
    requires Invariant(s) && Possible(s, Consume(tag, fault, forward))
    ensures Invariant(Next(s, Consume(tag, fault, forward))) && AllCarried(s, Next(s, Consume(tag, fault, forward)))
  {
    var c := s.copies[tag];
    var s' := Next(s, Consume(tag, fault, forward));
    var (outcome, done) := Processed(s, c.order, c.user, fault);
    ProcessedKeeps(s, tag, fault);
    ConsumedCopy(s, tag, fault, forward);
    hide Processed, Consumed, Invariant, HasRow, HasCopy, AllCarried, MovesCopy;
    CopyKeeps(done, s', tag, c.order, c.user);
    CarriedTwice(s, done, s');
  }

  lemma SameUser(s: State, order: OrderId, user: User)
    requires Invariant(s) && Belongs(s, order, user)
    ensures KnownAbout(s, order, user)
  {
  }

  lemma MovesKeep(s: State, step: Step)
    requires Invariant(s) && Possible(s, step) && (step.RetryExpires? || step.ListDue? || step.RequestDies?)
    ensures Invariant(Next(s, step)) && AllCarried(s, Next(s, step))
  {
    var s' := Next(s, step);
    if step.RetryExpires? {
      var c := s.copies[step.tag];
      assert HasCopy(s', c.order) by {
        assert s'.copies[step.tag].order == c.order;
      }
      hide Invariant, AllCarried;
      CopyKeeps(s, s', step.tag, c.order, c.user);
    } else {
      Unmoved(s, s');
    }
  }

  /** What the failed-order listener leaves: if the copy is gone, the order has its row and
      is marked as created, or it is marked as failed. */
  lemma FailureEffect(s: State, tag: Tag, fault: FailedFault, parked: bool)
    requires tag in s.copies && s.copies[tag].order in s.redis.data
    ensures var s' := FailureHandled(s, tag, fault, parked);
            var order := s.copies[tag].order;
            s' == s.(redis := s'.redis, copies := s'.copies) && Touches(s.redis, s'.redis, order) &&
            (if s'.redis.data[order].status == OrderCreated && order in s.db.rows then true
             else if s'.redis.data[order].status == Failed then true
             else s'.redis.data == s.redis.data && tag in s'.copies) &&
            (s'.copies == s.copies - {tag} || s'.copies == s.copies ||
             s'.copies == s.copies[tag := s.copies[tag].(place := ParkingQueue)])
  {
    var c := s.copies[tag];
    var restored := RestoreScript(s.redis, c.user, c.order).1;
    RestoreTouches(s.redis, c.user, c.order);
    PendingRemovedTouches(s.redis, c.order);
    MarkedFailedTouches(restored, c.order);
    TouchesNothing(s.redis, c.order);
    hide Touches, RestoreScript, MarkedFailed, PendingRemoved;
    TouchesTwice(s.redis, restored, MarkedFailed(restored, c.order), c.order);
  }

  /** The Redis part of the failed-order listener. */
  lemma FailureRedisKeeps(s: State, tag: Tag, touched: State, s': State)
    requires Invariant(s) && tag in s.copies && s.copies[tag].order in s.redis.data
    requires touched == s.(redis := s'.redis) && Touches(s.redis, s'.redis, s.copies[tag].order)
    requires var order := s.copies[tag].order;
             (s'.redis.data[order].status == OrderCreated && order in s.db.rows) || s'.redis.data[order].status == Failed ||
             (s'.redis.data == s.redis.data && tag in s'.copies)
    ensures var c := s.copies[tag];
            Invariant(touched) && AllCarried(s, touched) &&
            Belongs(touched, c.order, c.user) && KnownAbout(touched, c.order, c.user) &&
            (tag in s'.copies || HasRow(touched, c.user) || touched.redis.data[c.order].status == Failed)
  {
    var c := s.copies[tag];
    assert HasCopy(touched, c.order) by {
      assert touched.copies[tag].order == c.order;
    }
    assert Healthy(s, c.order) && Belongs(s, c.order, c.user);
    SameUser(s, c.order, c.user);
    assert c.order in s.db.rows ==> HasRow(touched, c.user);
    assert HasRow(s, c.user) ==> HasRow(touched, c.user);
    CoveredIsFine(s, touched, c.order, c.user);
    hide Carried, HasCopy, HasRow, AllCarried;
    assert Healthy(touched, c.order);
    SettleRedis(s, touched, c.order, c.user);
    SameUser(touched, c.order, c.user);
  }

  /** What becomes of the copy in the failed queue. */
  lemma FailedCopy(s: State, tag: Tag, touched: State, s': State)
    requires tag in s.copies && touched == s.(redis := s'.redis) && s' == touched.(copies := s'.copies)
    requires s'.copies == s.copies - {tag} || s'.copies == s.copies ||
             s'.copies == s.copies[tag := s.copies[tag].(place := ParkingQueue)]
    ensures MovesCopy(touched.copies, s'.copies, tag) && (tag in s'.copies ==> HasCopy(s', s.copies[tag].order))
  {
    if tag in s'.copies {
      assert s'.copies[tag].order == s.copies[tag].order;
    }
  }

  lemma FailedKeeps(s: State, tag: Tag, fault: FailedFault, parked: bool)
    requires Invariant(s) && Possible(s, HandleFailed(tag, fault, parked))
    ensures Invariant(Next(s, HandleFailed(tag, fault, parked))) && AllCarried(s, Next(s, HandleFailed(tag, fault, parked)))
  {
    var c := s.copies[tag];
    var s' := Next(s, HandleFailed(tag, fault, parked));
    var touched := s.(redis := s'.redis);
    assert Belongs(s, c.order, c.user);
    FailureEffect(s, tag, fault, parked);
    FailedCopy(s, tag, touched, s');
    assert s.redis.data.Keys == touched.redis.data.Keys;
    hide FailureHandled, Invariant, Touches, HasRow, HasCopy, AllCarried, MovesCopy;
    FailureRedisKeeps(s, tag, touched, s');
    CopyKeeps(touched, s', tag, c.order, c.user);
    CarriedTwice(s, touched, s');
  }

  /** The order is pending again, created with its row, or failed. */
  ghost predicate Resolved(r: Redis, r': Redis, order: OrderId, hasRow: bool) {
    Touches(r, r', order) &&
    match r'.data[order].status
    case BrokerNack => order in r'.pending
    case OrderCreated => hasRow
    case Failed => true
    case _ => false
  }

  /** Giving up: the reservation is restored and the order marked, or the error recorded. */
  lemma GivesUp(r: Redis, user: User, order: OrderId, hasRow: bool)
    requires order in r.data
    ensures var restored := RestoreScript(r, user, order).1;
            Resolved(r, MarkedFailed(restored, order), order, hasRow) &&
            Resolved(r, SendFailed(restored, order), order, hasRow)
  {
    var restored := RestoreScript(r, user, order).1;
    RestoreTouches(r, user, order);
    MarkedFailedTouches(restored, order);
    SendFailedTouches(restored, order);
    TouchesTwice(r, restored, MarkedFailed(restored, order), order);
    TouchesTwice(r, restored, SendFailed(restored, order), order);
  }

  lemma Tries(r: Redis, order: OrderId, hasRow: bool)
    requires order in r.data
    ensures Resolved(r, SendFailed(r, order), order, hasRow) && Resolved(r, MarkedFailed(r, order), order, hasRow)
    ensures hasRow ==> Resolved(r, PendingRemoved(r, order), order, hasRow)
    ensures Resolved(r, SendFailed(BeforeRepublish(r, order), order), order, hasRow)
  {
    var before := BeforeRepublish(r, order);
    SendFailedTouches(r, order);
    MarkedFailedTouches(r, order);
    PendingRemovedTouches(r, order);
    BeforeRepublishTouches(r, order);
    SendFailedTouches(before, order);
    TouchesTwice(r, before, SendFailed(before, order), order);
  }

  /** What republishing leaves: a new send on the wire, or the order resolved. */
  lemma RepublishEffect(s: State, order: OrderId, fault: RepublishFault, sending: Sending)
    requires order in s.redis.data && s.redis.data[order].user.Some?
    ensures var s' := Republished(s, order, fault, sending);
            var user := s.redis.data[order].user.value;
            (!sending.Throws? && s' == s.(redis := s'.redis, sends := s.sends[sending.id := Send(order, user, OnWire)]) &&
             Touches(s.redis, s'.redis, order) && s'.redis.data[order].status != OrderCreated) ||
            (s' == s.(redis := s'.redis) && Resolved(s.redis, s'.redis, order, order in s.db.rows))
  {
    var user := s.redis.data[order].user.value;
    GivesUp(s.redis, user, order, order in s.db.rows);
    Tries(s.redis, order, order in s.db.rows);
    TriesSending(s.redis, order);
    RepublishForms(s, order, fault, sending, user);
    hide Republished, Resolved, RestoreScript, MarkedFailed, PendingRemoved, SendFailed, BeforeRepublish, Touches;
  }

  lemma TriesSending(r: Redis, order: OrderId)
    requires order in r.data
    ensures var before := BeforeRepublish(r, order);
            Touches(r, before, order) && before.data[order].status != OrderCreated &&
            Touches(r, SendFailed(before, order), order) && SendFailed(before, order).data[order].status != OrderCreated
  {
    var before := BeforeRepublish(r, order);
    BeforeRepublishTouches(r, order);
    SendFailedTouches(before, order);
    TouchesTwice(r, before, SendFailed(before, order), order);
  }

  lemma RepublishForms(s: State, order: OrderId, fault: RepublishFault, sending: Sending, user: User)
    requires order in s.redis.data && s.redis.data[order].user == Some(user)
    ensures var r, s' := s.redis, Republished(s, order, fault, sending);
            var restored, before := RestoreScript(r, user, order).1, BeforeRepublish(r, order);
            (!sending.Throws? && s'.redis in {before, SendFailed(before, order)} &&
             s' == s.(redis := s'.redis, sends := s.sends[sending.id := Send(order, user, OnWire)])) ||
            (s' == s.(redis := s'.redis) &&
             (s'.redis in {SendFailed(r, order), MarkedFailed(r, order), SendFailed(restored, order),
                           MarkedFailed(restored, order), SendFailed(before, order)} ||
              (s'.redis == PendingRemoved(r, order) && order in s.db.rows)))
  {
    hide RestoreScript, PendingRemoved, MarkedFailed, SendFailed, BeforeRepublish;
  }

  lemma RepublishCases(s: State, order: OrderId, fault: RepublishFault, sending: Sending, user: User)
    requires order in s.redis.data && s.redis.data[order].user.Some? ==> s.redis.data[order].user == Some(user)
    ensures var r := s.redis;
            var restored, before := RestoreScript(r, user, order).1, BeforeRepublish(r, order);
            Republished(s, order, fault, sending).redis in
              {SendFailed(r, order), PendingRemoved(r, order), MarkedFailed(r, order), SendFailed(restored, order),
               MarkedFailed(restored, order), SendFailed(before, order), before} &&
            Republished(s, order, fault, sending).db == s.db
  {
    hide RestoreScript, PendingRemoved, MarkedFailed, SendFailed, BeforeRepublish;
  }

  lemma ProcessedCases(s: State, order: OrderId, user: User, fault: Fault)
    ensures var r, s' := s.redis, Processed(s, order, user, fault).1;
            s'.redis in {r, MarkedConsuming(r, order), PendingRemoved(MarkedConsuming(r, order), order)} &&
            s'.db.rows.Keys <= s.db.rows.Keys + {order}
  {
    hide MarkedConsuming, PendingRemoved;
  }

  lemma FailureCases(s: State, tag: Tag, fault: FailedFault, parked: bool)
    requires tag in s.copies
    ensures var r, s', c := s.redis, FailureHandled(s, tag, fault, parked), s.copies[tag];
            var restored := RestoreScript(r, c.user, c.order).1;
            s'.redis in {r, PendingRemoved(r, c.order), restored, MarkedFailed(restored, c.order)} && s'.db == s.db
  {
    hide RestoreScript, MarkedFailed, PendingRemoved;
  }

  lemma RepublishKeeps(s: State, order: OrderId, fault: RepublishFault, sending: Sending)
    requires Invariant(s) && Possible(s, Republish(order, fault, sending))
    ensures var s' := Next(s, Republish(order, fault, sending)); Invariant(s') && AllCarried(s, s')
  {
    assert Healthy(s, order);
    var user := s.redis.data[order].user.value;
    RepublishEffect(s, order, fault, sending);
    hide Republished;
    var s' := Next(s, Republish(order, fault, sending));
    if s' == s.(redis := s'.redis) && Resolved(s.redis, s'.redis, order, order in s.db.rows) {
      ResolvedKeeps(s, s', order, user);
    } else {
      hide Invariant, AllCarried, Healthy, Touches;
      SendingKeeps(s, s', order, user, sending.id);
    }
  }

  lemma ResolvedKeeps(s: State, s': State, order: OrderId, user: User)
    requires Invariant(s) && Belongs(s, order, user)
    requires s' == s.(redis := s'.redis) && Resolved(s.redis, s'.redis, order, order in s.db.rows)
    ensures Invariant(s') && AllCarried(s, s')
  {
    SameUser(s, order, user);
    assert order in s.db.rows ==> HasRow(s', user);
    if s'.redis.data[order].status == BrokerNack {
      PendingIsFine(s, s', order, user);
    } else {
      CoveredIsFine(s, s', order, user);
    }
    hide Healthy, Carried, HasRow;
    SettleRedis(s, s', order, user);
  }

  lemma OneRow(s: State)
    requires Invariant(s)
    ensures OneRowEach(s.db)
  {
  }

  lemma FirstSendKeeps(s: State, order: OrderId, sending: Sending)
    requires Invariant(s) && Possible(s, FirstSend(order, sending))
    ensures var s' := Next(s, FirstSend(order, sending)); Invariant(s') && AllCarried(s, s')
  {
    var sent := s.(toSend := s.toSend - {order});
    Unmoved(s, sent);
    assert Belongs(s, order, s.toSend[order]);
    hide Invariant, AllCarried;
    SentOutKeeps(sent, order, s.toSend[order], sending);
    CarriedTwice(s, sent, Next(s, FirstSend(order, sending)));
  }

  // ------------------------------------------------------------ all steps

  /** The steps that can lose an order, and when they do. */
  predicate Fatal(s: State, step: Step, order: OrderId) {
    match step
    case Ack(id) => id in s.sends && s.sends[id].order == order && !Steady(s, order)
    case RepublisherDies(o) => o == order && DiesBadly(s, order)
    case _ => false
  }

  lemma HarmlessKeeps(s: State, step: Step)
    requires Invariant(s) && Possible(s, step) && !step.Ack? && !step.RepublisherDies?
    ensures Invariant(Next(s, step)) && AllCarried(s, Next(s, step))
  {
    hide Invariant, AllCarried, Touches;
    match step
    case Request(user, order, activity) => RequestKeeps(s, user, order, activity);
    case FirstSend(order, sending) => FirstSendKeeps(s, order, sending);
    case Route(id, tag) => RouteKeeps(s, id, tag);
    case Return(id) => ReturnKeeps(s, id);
    case Nack(id) => NackKeeps(s, id);
    case Consume(tag, fault, forward) => ConsumeKeeps(s, tag, fault, forward);
    case ConsumerDies(tag, fault) => ProcessedKeeps(s, tag, fault);
    case HandleFailed(tag, fault, parked) => FailedKeeps(s, tag, fault, parked);
    case Republish(order, fault, sending) => RepublishKeeps(s, order, fault, sending);
    case _ => MovesKeep(s, step);
  }

  /** Every step of every handler keeps the invariant, deaths of the republisher included. */
  lemma StepKeepsInvariant(s: State, step: Step)
    requires Invariant(s) && Possible(s, step)
    ensures Invariant(Next(s, step))
  {
    match step
    case Ack(id) => AckKeeps(s, id);
    case RepublisherDies(order) => DeathKeeps(s, order);
    case _ => HarmlessKeeps(s, step);
  }

  lemma {:induction false} RunKeepsInvariant(s: State, steps: seq<Step>)
    requires Invariant(s) && PossibleRun(s, steps)
    ensures Invariant(After(s, steps))
    decreases |steps|
  {
    if steps != [] {
      StepKeepsInvariant(s, steps[0]);
      RunKeepsInvariant(Next(s, steps[0]), steps[1..]);
    }
  }
}
