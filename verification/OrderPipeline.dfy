/** The handlers of the order pipeline as they are written: methods that change Redis, the
    broker and MySQL in place, each proved to make exactly its step, so that what holds of
    every run of steps holds of every sequence of handler calls. */
module OrderPipeline {
  import opened Orders
  import opened OrderSafety
  import opened OrderGuarantees

  class Backend {
    // Redis
    var stock: int
    var reservation: map<User, OrderId>
    var legacy: set<User>
    var pending: set<OrderId>
    var data: map<OrderId, Data>
    var failed: set<OrderId>
    // MySQL
    var rows: map<OrderId, User>
    var dbStock: nat
    // the broker and the threads
    var sends: map<SendId, Send>
    var copies: map<Tag, Copy>
    var toSend: map<OrderId, User>
    var listed: set<OrderId>

    ghost function InRedis(): Redis
      reads this
    {
      Redis(stock, reservation, legacy, pending, data, failed)
    }

    ghost function InMySql(): MySql
      reads this
    {
      MySql(rows, dbStock)
    }

    ghost function Now(): State
      reads this
    {
      State(InRedis(), InMySql(), sends, copies, toSend, listed)
    }

    /** Before a sale with this stock. */
    constructor (stock: nat)
      ensures Initial(Now()) && this.stock == stock && dbStock == stock && rows == map[] && legacy == {}
    {
      this.stock, reservation, legacy, pending, data, failed := stock, map[], {}, {}, map[], {};
      rows, dbStock := map[], stock;
      sends, copies, toSend, listed := map[], map[], map[], {};
    }

    // ------------------------------------------------------------ PendingOrderService

    method PutStatus(order: OrderId, status: Status)
      modifies `data
      ensures InRedis() == Marked(old(InRedis()), order, status)
    {
      if order !in data {
        data := data[order := Data(None, status, 0)];
      }
      data := data[order := data[order].(status := status)];
    }

    method MarkSendSuccess(order: OrderId)
      modifies `data, `pending
      ensures InRedis() == SendSucceeded(old(InRedis()), order)
      ensures order in old(data) && old(data)[order].status in {RouteFailed, BrokerNack, Consuming, OrderCreated, Failed} ==>
        data == old(data) && pending == old(pending)
      ensures !(order in old(data) && old(data)[order].status in {RouteFailed, BrokerNack, Consuming, OrderCreated, Failed}) ==>
        data == old(data)[order := Entry(old(data), order).(status := Sent)] && pending == old(pending) - {order}
    {
      if order in data {
        var status := data[order].status;
        if status == RouteFailed || status == BrokerNack || status == Consuming || status == OrderCreated || status == Failed {
          return;
        }
      }
      pending := pending - {order};
      PutStatus(order, Sent);
    }

    method MarkSendFailed(order: OrderId)
      modifies `data, `pending
      ensures InRedis() == SendFailed(old(InRedis()), order)
      ensures data == old(data)[order := Entry(old(data), order).(status := BrokerNack)] && pending == old(pending) + {order}
    {
      PutStatus(order, BrokerNack);
      pending := pending + {order};
    }

    method MarkRouteFailed(order: OrderId, user: User)
      modifies `data, `pending
      ensures InRedis() == RouteFailure(old(InRedis()), order, user)
      ensures data == old(data)[order := Entry(old(data), order).(status := RouteFailed, user := Some(user))]
      ensures pending == old(pending) + {order}
    {
      PutStatus(order, RouteFailed);
      data := data[order := data[order].(user := Some(user))];
      pending := pending + {order};
    }

    method BeforeRepublishing(order: OrderId)
      modifies `data
      ensures InRedis() == BeforeRepublish(old(InRedis()), order)
      ensures var was := Entry(old(data), order);
              data == old(data)[order := was.(status := Republishing, retryCount := was.retryCount + 1)]
    {
      var retryCount := if order in data then data[order].retryCount + 1 else 1;
      PutStatus(order, Republishing);
      data := data[order := data[order].(retryCount := retryCount)];
    }

    method MarkFailed(order: OrderId)
      modifies `data, `pending, `failed
      ensures InRedis() == MarkedFailed(old(InRedis()), order)
      ensures data == old(data)[order := Entry(old(data), order).(status := Failed)]
      ensures pending == old(pending) - {order} && failed == old(failed) + {order}
    {
      pending := pending - {order};
      failed := failed + {order};
      PutStatus(order, Failed);
    }

    method RestorePreDeduct(order: OrderId, user: User) returns (restored: int)
      modifies `stock, `reservation, `legacy, `pending
      ensures (restored, InRedis()) == RestoreScript(old(InRedis()), user, order)
      ensures pending == old(pending) - {order} && stock == old(stock) + restored
      ensures restored == if (user in old(reservation) && old(reservation)[user] == order) ||
                             (user !in old(reservation) && user in old(legacy)) then 1 else 0
      ensures reservation == if restored == 1 && user in old(reservation) then old(reservation) - {user} else old(reservation)
      ensures legacy == if restored == 1 && user !in old(reservation) then old(legacy) - {user} else old(legacy)
    {
      if user in reservation && reservation[user] == order {
        stock := stock + 1;
        reservation := reservation - {user};
        pending := pending - {order};
        return 1;
      }
      if user !in reservation && user in legacy {
        stock := stock + 1;
        legacy := legacy - {user};
        pending := pending - {order};
        return 1;
      }
      pending := pending - {order};
      return 0;
    }

    method MarkConsuming(order: OrderId)
      modifies `data
      ensures InRedis() == MarkedConsuming(old(InRedis()), order)
      ensures data == if order in old(data) && old(data)[order].status in {OrderCreated, Failed} then old(data)
                      else old(data)[order := Entry(old(data), order).(status := Consuming)]
    {
      if order in data && (data[order].status == OrderCreated || data[order].status == Failed) {
        return;
      }
      PutStatus(order, Consuming);
    }

    method RemovePending(order: OrderId)
      modifies `data, `pending
      ensures InRedis() == PendingRemoved(old(InRedis()), order)
      ensures data == old(data)[order := Entry(old(data), order).(status := OrderCreated)] && pending == old(pending) - {order}
    {
      pending := pending - {order};
      PutStatus(order, OrderCreated);
    }

    // ------------------------------------------------------------ VoucherOrderServiceImpl

    /** `seckill.lua` */
    method Reserve(user: User, order: OrderId, a: Activity) returns (reply: Reply)
      modifies `stock, `reservation, `pending, `data
      ensures (reply, InRedis()) == SeckillScript(old(InRedis()), user, order, a)
      ensures reply == Accepted <==> Free(old(InRedis()), user) && Begun(a) && a.now <= a.end.value && old(stock) > 0
      ensures reply.Exists? <==> user in old(reservation)
      ensures reply.Exists? ==> reply.order == old(reservation)[user]
      ensures reply == LegacyExists <==> user !in old(reservation) && user in old(legacy)
      ensures reply == NotInitialised <==> Free(old(InRedis()), user) && (a.begin.None? || a.end.None?)
      ensures reply == NotStarted <==> Free(old(InRedis()), user) && a.begin.Some? && a.end.Some? && a.now < a.begin.value
      ensures reply == Ended <==> Free(old(InRedis()), user) && Begun(a) && a.now > a.end.value
      ensures reply == NoStock <==> Free(old(InRedis()), user) && Begun(a) && a.now <= a.end.value && old(stock) <= 0
      ensures reply != Accepted ==> InRedis() == old(InRedis())
      ensures reply == Accepted ==>
        stock == old(stock) - 1 && reservation == old(reservation)[user := order] && pending == old(pending) + {order} &&
        data == old(data)[order := Data(Some(user), Pending, 0)]
    {
      if user in reservation {
        return Exists(reservation[user]);
      }
      if user in legacy {
        return LegacyExists;
      }
      if a.begin.None? || a.end.None? {
        return NotInitialised;
      }
      if a.now < a.begin.value {
        return NotStarted;
      }
      if a.now > a.end.value {
        return Ended;
      }
      if stock <= 0 {
        return NoStock;
      }
      stock := stock - 1;
      reservation := reservation[user := order];
      pending := pending + {order};
      data := data[order := Data(Some(user), Pending, 0)];
      return Accepted;
    }

    /** The first half of `seckillVoucher`: the script. */
    method SeckillVoucher(user: User, order: OrderId, a: Activity) returns (reply: Reply)
      requires Possible(Now(), Request(user, order, a))
      modifies this
      ensures Now() == Next(old(Now()), Request(user, order, a))
      ensures reply == SeckillScript(old(InRedis()), user, order, a).0
      ensures reply == Accepted <==>
        Free(old(InRedis()), user) && Begun(a) && a.now <= a.end.value && old(stock) > 0
      ensures toSend == if reply == Accepted then old(toSend)[order := user] else old(toSend)
    {
      reply := Reserve(user, order, a);
      if reply == Accepted {
        toSend := toSend[order := user];
      }
    }

    /** Its second half: the send, whose exception is caught. */
    method SendFirst(order: OrderId, sending: Sending)
      requires Possible(Now(), FirstSend(order, sending))
      modifies this
      ensures Now() == Next(old(Now()), FirstSend(order, sending))
      ensures toSend == old(toSend) - {order}
      ensures sends == if sending.Throws? then old(sends)
                       else old(sends)[sending.id := Send(order, old(toSend)[order], OnWire)]
      ensures if sending.Leaves? then InRedis() == old(InRedis())
              else data == old(data)[order := Entry(old(data), order).(status := BrokerNack)] && pending == old(pending) + {order}
    {
      var user := toSend[order];
      toSend := toSend - {order};
      var threw := SendOrderMessage(order, user, sending);
      if threw {
        MarkSendFailed(order);
      }
    }

    /** `createVouchOrder`: the insert, then the guarded decrement, in one transaction. */
    method CreateVouchOrder(order: OrderId, user: User) returns (creation: Creation)
      modifies `rows, `dbStock
      ensures (creation, InMySql()) == CreateOrder(old(InMySql()), order, user)
      ensures creation == Duplicate <==> order in old(rows) || user in old(rows).Values
      ensures creation == Created <==> order !in old(rows) && user !in old(rows).Values && old(dbStock) > 0
      ensures creation == Created ==> rows == old(rows)[order := user] && dbStock == old(dbStock) - 1
      ensures creation != Created ==> rows == old(rows) && dbStock == old(dbStock)
    {
      if order in rows || user in rows.Values {
        return Duplicate;
      }
      ghost var before := rows;
      rows := rows[order := user];
      if dbStock > 0 {
        dbStock := dbStock - 1;
        return Created;
      }
      rows := rows - {order};
      assert rows == before;
      return Refused;
    }

    /** `querySeckillOrderStatus`: COMPLETED only with a row. */
    method QueryOrderStatus(order: OrderId, user: User) returns (told: Told)
      requires Invariant(Now())
      ensures told == Query(Now(), order, user)
      ensures told == Completed ==> user in rows.Values
      ensures order in data ==>
        told == (if data[order].user != Some(user) then NotFound
                 else if data[order].status == OrderCreated then Completed
                 else if data[order].status == Failed then OrderFailed else Processing)
      ensures order !in data ==> told == if order in rows && rows[order] == user then Completed else NotFound
    {
      if order in data {
        assert Healthy(Now(), order);
        if data[order].user != Some(user) {
          return NotFound;
        }
        match data[order].status
        case OrderCreated => return Completed;
        case Failed => return OrderFailed;
        case _ => return Processing;
      }
      if order !in rows || rows[order] != user {
        return NotFound;
      }
      return Completed;
    }

    // ------------------------------------------------------------ VoucherOrderProducer

    method SendOrderMessage(order: OrderId, user: User, sending: Sending) returns (threw: bool)
      modifies `sends
      ensures threw == !sending.Leaves?
      ensures sends == if sending.Throws? then old(sends) else old(sends)[sending.id := Send(order, user, OnWire)]
    {
      if sending.Throws? {
        return true;
      }
      sends := sends[sending.id := Send(order, user, OnWire)];
      return sending.LeavesButThrows?;
    }

    /** The confirm callback. */
    method Confirm(id: SendId, ack: bool)
      requires Possible(Now(), if ack then Ack(id) else Nack(id))
      modifies this
      ensures Now() == Next(old(Now()), if ack then Ack(id) else Nack(id))
      ensures sends == old(sends) - {id}
      ensures var order := old(sends)[id].order;
              !ack ==> data == old(data)[order := Entry(old(data), order).(status := BrokerNack)] &&
                       pending == old(pending) + {order}
      ensures var order := old(sends)[id].order;
              ack ==> if order in old(data) && old(data)[order].status in {RouteFailed, BrokerNack, Consuming, OrderCreated, Failed}
                      then data == old(data) && pending == old(pending)
                      else data == old(data)[order := Entry(old(data), order).(status := Sent)] && pending == old(pending) - {order}
    {
      var order := sends[id].order;
      sends := sends - {id};
      if ack {
        MarkSendSuccess(order);
        return;
      }
      MarkSendFailed(order);
    }

    /** The return callback. */
    method ReturnedMessage(id: SendId)
      requires Possible(Now(), Return(id))
      modifies this
      ensures Now() == Next(old(Now()), Return(id))
      ensures var m := old(sends)[id];
              sends == old(sends)[id := m.(state := Returned)] && pending == old(pending) + {m.order} &&
              data == old(data)[m.order := Entry(old(data), m.order).(status := RouteFailed, user := Some(m.user))]
    {
      var m := sends[id];
      sends := sends[id := m.(state := Returned)];
      MarkRouteFailed(m.order, m.user);
    }

    // ------------------------------------------------------------ VoucherOrderConsumer

    /** The body of `listenVoucherOrder` with its duplicate handler, up to where the fault
        stops it. */
    method Process(order: OrderId, user: User, fault: Fault) returns (outcome: Outcome)
      modifies `data, `pending, `rows, `dbStock
      ensures (outcome, Now()) == Processed(old(Now()), order, user, fault)
      ensures Processes(old(InRedis()), old(InMySql()), order, user, fault, InRedis(), InMySql(), outcome)
    {
      if fault == MarkFails {
        return Caught;
      }
      MarkConsuming(order);
      if fault == CreateFails {
        return Caught;
      }
      var creation := CreateVouchOrder(order, user);
      if creation == Refused {
        return Caught;
      }
      if fault != RemoveFails {
        RemovePending(order);
        if fault != AckFails {
          return Handled;
        }
      }
      return if creation == Duplicate then Escaped else Caught;
    }

    method ListenVoucherOrder(tag: Tag, fault: Fault, forward: Forward)
      requires Possible(Now(), Consume(tag, fault, forward))
      modifies this
      ensures Now() == Next(old(Now()), Consume(tag, fault, forward))
      ensures exists outcome ::
        Processes(old(InRedis()), old(InMySql()), old(copies)[tag].order, old(copies)[tag].user, fault, InRedis(), InMySql(), outcome) &&
        Ends(old(copies), tag, outcome, forward, copies)
    {
      hide Processed, Settled;
      var outcome := Process(copies[tag].order, copies[tag].user, fault);
      SettleDelivery(tag, outcome, forward);
    }

    /** The acknowledgement, the exception handler, or the broker's redelivery. */
    method SettleDelivery(tag: Tag, outcome: Outcome, forward: Forward)
      requires tag in copies && FreshForward(Now(), forward)
      modifies `copies
      ensures copies == Settled(old(copies), tag, outcome, forward)
      ensures Ends(old(copies), tag, outcome, forward, copies)
    {
      var c := copies[tag];
      if outcome == Handled {
        copies := copies - {tag};  // basicAck
      } else if outcome == Caught {
        if c.rejections >= MAX_RETRY_COUNT {
          var confirmed := SendToFailedQueueAndWaitForConfirm(c, forward);
          if confirmed {
            copies := copies - {tag};  // basicAck; otherwise basicNack puts it back
          }
        } else {
          copies := copies[tag := c.(place := RetryQueue, rejections := c.rejections + 1)];  // basicReject
        }
      }
    }

    method SendToFailedQueueAndWaitForConfirm(c: Copy, forward: Forward) returns (confirmed: bool)
      modifies `copies
      ensures confirmed == forward.Confirmed?
      ensures copies == if forward.Unconfirmed? then old(copies) else old(copies)[forward.tag := c.(place := FailedQueue)]
    {
      if !forward.Unconfirmed? {
        copies := copies[forward.tag := c.(place := FailedQueue)];
      }
      return forward.Confirmed?;
    }

    // ------------------------------------------------------------ VoucherOrderFailedConsumer

    method ListenFailedOrder(tag: Tag, fault: FailedFault, parked: bool)
      requires Possible(Now(), HandleFailed(tag, fault, parked))
      modifies this
      ensures Now() == Next(old(Now()), HandleFailed(tag, fault, parked))
      ensures copies == if fault == FailedDone then old(copies) - {tag}
                        else if parked then old(copies)[tag := old(copies)[tag].(place := ParkingQueue)] else old(copies)
      ensures GivesUpOn(old(InRedis()), old(rows), old(copies)[tag].order, old(copies)[tag].user, fault, InRedis()) && rows == old(rows)
    {
      var c := copies[tag];
      var acked := HandleFailure(c, fault);
      if acked {
        copies := copies - {tag};
      } else if parked {
        copies := copies[tag := c.(place := ParkingQueue)];
      }
    }

    /** The listener itself; it ends with the acknowledgement or with an exception. */
    method HandleFailure(c: Copy, fault: FailedFault) returns (acked: bool)
      modifies `stock, `reservation, `legacy, `pending, `data, `failed
      ensures acked == (fault == FailedDone)
      ensures InRedis() ==
        if fault == BeforeRestore then old(InRedis())
        else if c.order in rows then
          if fault == AfterRestore then old(InRedis()) else PendingRemoved(old(InRedis()), c.order)
        else
          var restored := RestoreScript(old(InRedis()), c.user, c.order).1;
          if fault == AfterRestore then restored else MarkedFailed(restored, c.order)
      ensures GivesUpOn(old(InRedis()), rows, c.order, c.user, fault, InRedis())
    {
      if fault == BeforeRestore {
        return false;
      }
      if c.order in rows {
        if fault == AfterRestore {
          return false;
        }
        RemovePending(c.order);
        return fault == FailedDone;
      }
      var restored := RestorePreDeduct(c.order, c.user);
      if fault == AfterRestore {
        return false;
      }
      MarkFailed(c.order);
      return fault == FailedDone;
    }

    // ------------------------------------------------------------ PendingOrderRepublishTask

    /** `republishOne`; when it throws, the task records a failed send. */
    method RepublishOne(order: OrderId, fault: RepublishFault, sending: Sending) returns (threw: bool)
      modifies this
      ensures Republished(old(Now()), order, fault, sending) ==
        if threw then Now().(redis := SendFailed(InRedis(), order)) else Now()
      ensures Republishes(old(InRedis()), rows, order, fault, sending, InRedis(), threw)
      ensures rows == old(rows) && dbStock == old(dbStock) && copies == old(copies) && toSend == old(toSend)
      ensures sends == if Sends(old(InRedis()), rows, order, fault) && !sending.Throws?
                       then old(sends)[sending.id := Send(order, old(data)[order].user.value, OnWire)] else old(sends)
    {
      if fault == LookupThrows {
        return true;
      }
      if order in rows {
        if fault == MarkThrows {
          return true;
        }
        RemovePending(order);
        return false;
      }
      if order !in data {
        if fault == MarkThrows {
          return true;
        }
        MarkFailed(order);
        return false;
      }
      if data[order].user.None? {
        return true;
      }
      threw := RepublishKnown(order, fault, sending);
    }

    /** The same for an order whose user is known: give up after ten attempts, else try again. */
    method RepublishKnown(order: OrderId, fault: RepublishFault, sending: Sending) returns (threw: bool)
      requires order !in rows && order in data && data[order].user.Some? && fault != LookupThrows
      modifies this
      ensures Republished(old(Now()), order, fault, sending) ==
        if threw then Now().(redis := SendFailed(InRedis(), order)) else Now()
      ensures Republishes(old(InRedis()), rows, order, fault, sending, InRedis(), threw)
      ensures rows == old(rows) && dbStock == old(dbStock) && copies == old(copies) && toSend == old(toSend)
      ensures sends == if Sends(old(InRedis()), rows, order, fault) && !sending.Throws?
                       then old(sends)[sending.id := Send(order, old(data)[order].user.value, OnWire)] else old(sends)
    {
      var user := data[order].user.value;
      if data[order].retryCount >= MAX_REPUBLISH_COUNT {
        if fault == RestoreThrows {
          return true;
        }
        var restored := RestorePreDeduct(order, user);
        if fault == MarkThrows {
          return true;
        }
        MarkFailed(order);
        return false;
      }
      if fault == MarkThrows {
        return true;
      }
      BeforeRepublishing(order);
      threw := SendOrderMessage(order, user, sending);
    }

    method RepublishGuarded(order: OrderId, fault: RepublishFault, sending: Sending)
      requires Possible(Now(), Republish(order, fault, sending))
      modifies this
      ensures Now() == Next(old(Now()), Republish(order, fault, sending))
      ensures exists r, threw | Republishes(old(InRedis()), old(rows), order, fault, sending, r, threw) ::
        InRedis() == if threw
                     then r.(data := r.data[order := Entry(r.data, order).(status := BrokerNack)], pending := r.pending + {order})
                     else r
      ensures sends == if Sends(old(InRedis()), old(rows), order, fault) && !sending.Throws?
                       then old(sends)[sending.id := Send(order, old(data)[order].user.value, OnWire)] else old(sends)
    {
      var threw := RepublishOne(order, fault, sending);
      if threw {
        MarkSendFailed(order);
      }
    }

    /** `republishOne` in a task that dies after its first effect. */
    method RepublishHalf(order: OrderId)
      requires Possible(Now(), RepublisherDies(order))
      modifies this
      ensures Now() == Next(old(Now()), RepublisherDies(order))
      ensures order in rows || order !in old(data) || old(data)[order].user.None? ==> InRedis() == old(InRedis())
      ensures order !in rows && order in old(data) && old(data)[order].user.Some? ==>
        if old(data)[order].retryCount >= 10 then GivenBack(old(InRedis()), old(data)[order].user.value, order, InRedis())
        else InRedis() == old(InRedis()).(data := old(data)[order :=
          old(data)[order].(status := Republishing, retryCount := old(data)[order].retryCount + 1)])
    {
      if order in rows || order !in data || data[order].user.None? {
        return;
      }
      if data[order].retryCount >= MAX_REPUBLISH_COUNT {
        var restored := RestorePreDeduct(order, data[order].user.value);
        return;
      }
      BeforeRepublishing(order);
    }

    /** `republishPendingOrders`, for one voucher: the orders that are due when it starts,
        one after the other, whatever becomes of each. */
    method RepublishPendingOrders(due: seq<OrderId>, faults: nat -> RepublishFault, sendings: nat -> Sending)
      returns (ghost steps: seq<Step>)
      requires Sound(Now()) && Possible(Now(), ListDue(set o | o in due)) && NewSends(Now(), |due|, sendings)
      modifies this
      ensures steps == [ListDue(set o | o in due)] + Rounds(due, faults, sendings, |due|)
      ensures IsBatch(steps, due, faults, sendings)
      ensures PossibleRun(old(Now()), steps) && Now() == After(old(Now()), steps)
      ensures Sound(Now())
    {
      ghost var start := Now();
      hide Sound, PossibleRun, After, IsBatch;
      steps := StartBatch(due);
      ghost var first := steps;
      for i := 0 to |due|
        invariant steps == first + Rounds(due, faults, sendings, i)
        invariant PossibleRun(start, steps) && Now() == After(start, steps) && Sound(Now())
        invariant (forall o | o in due :: o in listed) && OnlySends(start.sends, sends, sendings, i)
      {
        assert FreshSend(Now(), sendings(i));
        steps := RepublishNext(start, steps, due[i], faults(i), sendings(i));
      }
      BatchIs(due, faults, sendings);
    }

    method StartBatch(due: seq<OrderId>) returns (ghost steps: seq<Step>)
      requires Sound(Now()) && Possible(Now(), ListDue(set o | o in due))
      modifies `listed
      ensures steps == [ListDue(set o | o in due)]
      ensures PossibleRun(old(Now()), steps) && Now() == After(old(Now()), steps) && Sound(Now())
      ensures forall o | o in due :: o in listed
    {
      ghost var batch := set o | o in due;
      StaysSound(Now(), ListDue(batch));
      RunOneMore(Now(), [], ListDue(batch));
      assert [] + [ListDue(batch)] == [ListDue(batch)];
      hide Sound, PossibleRun, After;
      listed := listed + set o | o in due;
      steps := [ListDue(batch)];
    }

    method RepublishNext(ghost start: State, ghost before: seq<Step>, order: OrderId, fault: RepublishFault, sending: Sending)
      returns (ghost steps: seq<Step>)
      requires PossibleRun(start, before) && Now() == After(start, before) && Sound(Now())
      requires order in listed && FreshSend(Now(), sending)
      modifies this
      ensures steps == before + [Republish(order, fault, sending)]
      ensures PossibleRun(start, steps) && Now() == After(start, steps) && Sound(Now())
      ensures listed == old(listed) && forall id | id in sends :: id in old(sends) || (!sending.Throws? && sending.id == id)
    {
      hide Sound, PossibleRun, After, Republished;
      ghost var step := Republish(order, fault, sending);
      RunOneMore(start, before, step);
      StaysSound(Now(), step);
      RepublishAddsSend(Now(), order, fault, sending);
      RepublishGuarded(order, fault, sending);
      steps := before + [step];
    }

    // ------------------------------------------------------------ runs

    method Perform(step: Step)
      requires Possible(Now(), step)
      modifies this
      ensures Now() == Next(old(Now()), step)
    {
      match step
      case Request(user, order, activity) =>
        var reply := SeckillVoucher(user, order, activity);
      case FirstSend(order, sending) => SendFirst(order, sending);
      case RequestDies(order) => toSend := toSend - {order};
      case Route(id, tag) =>
        copies := copies[tag := Copy(sends[id].order, sends[id].user, OrderQueue, 0)];
        sends := sends[id := sends[id].(state := Routed)];
      case Return(id) => ReturnedMessage(id);
      case Ack(id) => Confirm(id, true);
      case Nack(id) => Confirm(id, false);
      case Consume(tag, fault, forward) => ListenVoucherOrder(tag, fault, forward);
      case ConsumerDies(tag, fault) =>
        var outcome := Process(copies[tag].order, copies[tag].user, fault);
      case RetryExpires(tag) => copies := copies[tag := copies[tag].(place := OrderQueue)];
      case HandleFailed(tag, fault, parked) => ListenFailedOrder(tag, fault, parked);
      case ListDue(batch) => listed := listed + batch;
      case Republish(order, fault, sending) => RepublishGuarded(order, fault, sending);
      case RepublisherDies(order) => RepublishHalf(order);
    }

    /** Any run of handlers on the live state is a run of steps, so it loses no order that it
        spares. */
    method Execute(steps: seq<Step>)
      requires PossibleRun(Now(), steps) && Sound(Now())
      modifies this
      ensures Now() == After(old(Now()), steps) && Invariant(Now())
      ensures forall order | order in data && Spared(old(Now()), steps, order) :: NotLost(Now(), order)
    {
      RunKeepsInvariant(Now(), steps);
      SparedStays(Now(), steps);
      hide Invariant, Sound, NotLost, Spared;
      var i := 0;
      while i < |steps|
        invariant 0 <= i <= |steps|
        invariant PossibleRun(Now(), steps[i..]) && After(Now(), steps[i..]) == After(old(Now()), steps)
      {
        ghost var rest := steps[i..];
        assert rest[0] == steps[i] && rest[1..] == steps[i + 1..];
        Perform(steps[i]);
        i := i + 1;
      }
    }
  }

  /** No order is lost. */
  ghost predicate Sound(s: State) {
    Invariant(s) && forall order | order in s.redis.data :: NotLost(s, order)
  }

  lemma StaysSound(s: State, step: Step)
    requires Sound(s) && Possible(s, step) && !step.Ack? && !step.RepublisherDies?
    ensures Sound(Next(s, step))
  {
    HarmlessKeeps(s, step);
    hide Invariant, NotLost, Steady, Next;
    forall order | order in Next(s, step).redis.data ensures NotLost(Next(s, step), order) {
      assert Carried(s, Next(s, step), order);
    }
  }

  lemma SparedStays(s: State, steps: seq<Step>)
    requires Sound(s) && PossibleRun(s, steps)
    ensures forall order | order in After(s, steps).redis.data && Spared(s, steps, order) :: NotLost(After(s, steps), order)
  {
    forall order | order in After(s, steps).redis.data && Spared(s, steps, order) ensures NotLost(After(s, steps), order) {
      SurvivesFrom(s, steps, order);
      SurvivesToTheEnd(s, steps, order);
    }
  }

  // ------------------------------------------------------------ what the handlers promise

  /** The hash of the order, or what is read from a missing one. */
  function Entry(data: map<OrderId, Data>, order: OrderId): Data {
    if order in data then data[order] else Data(None, Pending, 0)
  }

  predicate Free(r: Redis, user: User) {
    user !in r.reservation && user !in r.legacy
  }

  predicate Begun(a: Activity) {
    a.begin.Some? && a.end.Some? && a.begin.value <= a.now
  }

  /** One delivery: the order is marked as being consumed, then inserted unless it is a
      duplicate or there is no stock, then taken off the pending orders. */
  ghost predicate Processes(r: Redis, db: MySql, order: OrderId, user: User, fault: Fault, r': Redis, db': MySql, outcome: Outcome) {
    var duplicate := order in db.rows || user in db.rows.Values;
    var reached := fault != MarkFails && fault != CreateFails;
    var created := reached && !duplicate && db.stock > 0;
    var cleaned := (created || (reached && duplicate)) && fault != RemoveFails;
    var marked := if order in r.data && r.data[order].status in {OrderCreated, Failed} then r.data
                  else r.data[order := Entry(r.data, order).(status := Consuming)];
    (outcome == Handled <==> cleaned && fault != AckFails) &&
    (outcome == Escaped <==> reached && duplicate && (fault == RemoveFails || fault == AckFails)) &&
    db' == (if created then MySql(db.rows[order := user], db.stock - 1) else db) &&
    r' == r.(data := r'.data, pending := r'.pending) &&
    r'.pending == (if cleaned then r.pending - {order} else r.pending) &&
    r'.data == (if fault == MarkFails then r.data
                else if cleaned then marked[order := Entry(marked, order).(status := OrderCreated)] else marked)
  }

  /** A handled copy is gone, after an error in the handler itself it is delivered again, after
      any other it waits for its retry, or goes to the failed queue once it was rejected three
      times. */
  ghost predicate Ends(copies: map<Tag, Copy>, tag: Tag, outcome: Outcome, forward: Forward, copies': map<Tag, Copy>)
    requires tag in copies
  {
    var c := copies[tag];
    (outcome == Handled ==> copies' == copies - {tag}) &&
    (outcome == Escaped ==> copies' == copies) &&
    (outcome == Caught && c.rejections < 3 ==>
      copies' == copies[tag := c.(place := RetryQueue, rejections := c.rejections + 1)]) &&
    (outcome == Caught && c.rejections >= 3 ==>
      match forward
      case Confirmed(t) => copies' == (copies - {tag})[t := c.(place := FailedQueue)]
      case Unconfirmed => copies' == copies
      case UnconfirmedButArrived(t) => copies' == copies[t := c.(place := FailedQueue)])
  }

  /** The reservation of the order, or an old-style one, is returned and the order leaves the
      pending set. */
  ghost predicate GivenBack(r: Redis, user: User, order: OrderId, r': Redis) {
    var own := user in r.reservation && r.reservation[user] == order;
    var old_style := user !in r.reservation && user in r.legacy;
    r' == r.(stock := if own || old_style then r.stock + 1 else r.stock,
             reservation := if own then r.reservation - {user} else r.reservation,
             legacy := if old_style then r.legacy - {user} else r.legacy, pending := r.pending - {order})
  }

  /** An order with a row is cleaned up, any other has its reservation returned and is marked. */
  ghost predicate GivesUpOn(r: Redis, rows: map<OrderId, User>, order: OrderId, user: User, fault: FailedFault, r': Redis) {
    if fault == BeforeRestore || (fault == AfterRestore && order in rows) then r' == r
    else if order in rows then
      r' == r.(pending := r.pending - {order}, data := r.data[order := Entry(r.data, order).(status := OrderCreated)])
    else exists restored | GivenBack(r, user, order, restored) ::
      r' == if fault == AfterRestore then restored
            else restored.(failed := r.failed + {order}, data := r.data[order := Entry(r.data, order).(status := Failed)])
  }

  /** The order is sent again: it has no row, its user is known and fewer than ten attempts
      have been made. */
  predicate Sends(r: Redis, rows: map<OrderId, User>, order: OrderId, fault: RepublishFault) {
    order !in rows && order in r.data && r.data[order].user.Some? && r.data[order].retryCount < 10 &&
    fault != LookupThrows && fault != MarkThrows
  }

  ghost predicate Republishes(r: Redis, rows: map<OrderId, User>, order: OrderId, fault: RepublishFault, sending: Sending,
                              r': Redis, threw: bool) {
    if fault == LookupThrows then threw && r' == r
    else if order in rows then
      threw == (fault == MarkThrows) &&
      r' == (if threw then r
             else r.(pending := r.pending - {order}, data := r.data[order := Entry(r.data, order).(status := OrderCreated)]))
    else if order !in r.data then
      threw == (fault == MarkThrows) &&
      r' == (if threw then r
             else r.(pending := r.pending - {order}, failed := r.failed + {order},
                     data := r.data[order := Entry(r.data, order).(status := Failed)]))
    else if r.data[order].user.None? then threw && r' == r
    else if r.data[order].retryCount >= 10 then
      if fault == RestoreThrows then threw && r' == r
      else
        threw == (fault == MarkThrows) &&
        exists restored | GivenBack(r, r.data[order].user.value, order, restored) ::
          r' == if threw then restored
                else restored.(failed := r.failed + {order}, data := r.data[order := r.data[order].(status := Failed)])
    else if fault == MarkThrows then threw && r' == r
    else
      threw == !sending.Leaves? &&
      r' == r.(data := r.data[order := r.data[order].(status := Republishing, retryCount := r.data[order].retryCount + 1)])
  }

  function Rounds(due: seq<OrderId>, faults: nat -> RepublishFault, sendings: nat -> Sending, n: nat): seq<Step>
    requires n <= |due|
  {
    if n == 0 then []
    else Rounds(due, faults, sendings, n - 1) + [Republish(due[n - 1], faults(n - 1), sendings(n - 1))]
  }

  lemma {:induction false} RoundAt(due: seq<OrderId>, faults: nat -> RepublishFault, sendings: nat -> Sending, n: nat, i: nat)
    requires i <= n <= |due|
    ensures |Rounds(due, faults, sendings, n)| == n
    ensures i < n ==> Rounds(due, faults, sendings, n)[i] == Republish(due[i], faults(i), sendings(i))
  {
    if n > 0 {
      RoundAt(due, faults, sendings, n - 1, if i < n - 1 then i else n - 1);
    }
  }

  /** The list, then each order once. */
  ghost predicate IsBatch(steps: seq<Step>, due: seq<OrderId>, faults: nat -> RepublishFault, sendings: nat -> Sending) {
    |steps| == 1 + |due| && steps[0] == ListDue(set o | o in due) &&
    forall k | 1 <= k <= |due| :: steps[k] == Republish(due[k - 1], faults(k - 1), sendings(k - 1))
  }

  lemma BatchIs(due: seq<OrderId>, faults: nat -> RepublishFault, sendings: nat -> Sending)
    ensures IsBatch([ListDue(set o | o in due)] + Rounds(due, faults, sendings, |due|), due, faults, sendings)
  {
    hide Rounds;
    var steps := [ListDue(set o | o in due)] + Rounds(due, faults, sendings, |due|);
    RoundAt(due, faults, sendings, |due|, 0);
    forall k | 1 <= k <= |due| ensures steps[k] == Republish(due[k - 1], faults(k - 1), sendings(k - 1)) {
      RoundAfter(due, faults, sendings, ListDue(set o | o in due), k);
    }
  }

  lemma RoundAfter(due: seq<OrderId>, faults: nat -> RepublishFault, sendings: nat -> Sending, first: Step, k: nat)
    requires 1 <= k <= |due|
    ensures var steps := [first] + Rounds(due, faults, sendings, |due|);
            |steps| == 1 + |due| && steps[k] == Republish(due[k - 1], faults(k - 1), sendings(k - 1))
  {
    hide Rounds;
    RoundAt(due, faults, sendings, |due|, k - 1);
  }

  /** The sends of one batch have new ids. */
  ghost predicate NewSends(s: State, n: nat, sendings: nat -> Sending) {
    (forall i | 0 <= i < n :: FreshSend(s, sendings(i))) &&
    forall i, j | 0 <= i < j < n && !sendings(i).Throws? && !sendings(j).Throws? :: sendings(i).id != sendings(j).id
  }

  ghost predicate OnlySends(before: map<SendId, Send>, now: map<SendId, Send>, sendings: nat -> Sending, n: nat) {
    forall id | id in now :: id in before || exists i :: 0 <= i < n && !sendings(i).Throws? && sendings(i).id == id
  }

  lemma RepublishAddsSend(s: State, order: OrderId, fault: RepublishFault, sending: Sending)
    ensures var s' := Republished(s, order, fault, sending);
            s'.listed == s.listed && (forall id | id in s'.sends :: id in s.sends || (!sending.Throws? && sending.id == id))
  {
    hide RestoreScript, PendingRemoved, MarkedFailed, SendFailed, BeforeRepublish;
  }

  lemma {:induction false} RunOneMore(s: State, steps: seq<Step>, step: Step)
    requires PossibleRun(s, steps) && Possible(After(s, steps), step)
    ensures PossibleRun(s, steps + [step]) && After(s, steps + [step]) == Next(After(s, steps), step)
    decreases |steps|
  {
    if steps == [] {
      assert [] + [step] == [step] && [step][1..] == [];
    } else {
      RunOneMore(Next(s, steps[0]), steps[1..], step);
      assert (steps + [step])[1..] == steps[1..] + [step];
    }
  }
}
