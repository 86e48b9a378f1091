/** Asynchronous flash-sale orders of one voucher: Redis, the broker and MySQL as values, and
    what each handler does to them. All Redis keys of a voucher live in one shard and no
    handler touches two vouchers, so the vouchers do not interact. */
module Orders {
  datatype Option<+T> = None | Some(value: T)

  type OrderId = nat
  type User = nat
  type SendId = nat
  type Tag = nat

  /** The `status` field of `seckill:pending:data`. */
  datatype Status =
    Pending | Sending | Sent | BrokerNack | RouteFailed | Republishing | Consuming | OrderCreated | Failed

  datatype Data = Data(user: Option<User>, status: Status, retryCount: nat)

  datatype Redis = Redis(
    stock: int,
    reservation: map<User, OrderId>,
    legacy: set<User>,
    pending: set<OrderId>,
    data: map<OrderId, Data>,
    failed: set<OrderId>)

  /** `tb_voucher_order` (order id to user) and the stock of `tb_seckill_voucher`. */
  datatype MySql = MySql(rows: map<OrderId, User>, stock: nat)

  /** A send whose confirm has not been handled: still unresolved, routed to the order
      queue, or returned as unroutable. */
  datatype SendState = OnWire | Routed | Returned

  datatype Send = Send(order: OrderId, user: User, state: SendState)

  datatype Place = OrderQueue | RetryQueue | FailedQueue | ParkingQueue

  /** A message copy; `rejections` is the count in its `x-death` header. */
  datatype Copy = Copy(order: OrderId, user: User, place: Place, rejections: nat)

  /** `toSend`: requests between the reservation script and their first send. `listed`:
      orders that a republishing task has ever listed as due, since it may be slow. */
  datatype State = State(
    redis: Redis,
    db: MySql,
    sends: map<SendId, Send>,
    copies: map<Tag, Copy>,
    toSend: map<OrderId, User>,
    listed: set<OrderId>)

  const MAX_RETRY_COUNT := 3
  const MAX_REPUBLISH_COUNT := 10
  const BATCH_SIZE := 100

  // ------------------------------------------------------------ Redis scripts

  /** `seckill:time`: begin and end, and Redis's own clock. */
  datatype Activity = Activity(begin: Option<int>, end: Option<int>, now: int)

  datatype Reply = Exists(order: OrderId) | LegacyExists | NotInitialised | NotStarted | Ended | NoStock | Accepted

  /** `seckill.lua`; a missing stock key counts as no stock, as a stock of zero does. */
  function SeckillScript(r: Redis, user: User, order: OrderId, a: Activity): (Reply, Redis) {
    if user in r.reservation then (Exists(r.reservation[user]), r)
    else if user in r.legacy then (LegacyExists, r)
    else if a.begin.None? || a.end.None? then (NotInitialised, r)
    else if a.now < a.begin.value then (NotStarted, r)
    else if a.now > a.end.value then (Ended, r)
    else if r.stock <= 0 then (NoStock, r)
    else
      (Accepted,
       r.(stock := r.stock - 1, reservation := r.reservation[user := order], pending := r.pending + {order},
          data := r.data[order := Data(Some(user), Pending, 0)]))
  }

  /** `seckill_restore.lua` */
  function RestoreScript(r: Redis, user: User, order: OrderId): (int, Redis) {
    if user in r.reservation && r.reservation[user] == order then
      (1, r.(stock := r.stock + 1, reservation := r.reservation - {user}, pending := r.pending - {order}))
    else if user !in r.reservation && user in r.legacy then
      (1, r.(stock := r.stock + 1, legacy := r.legacy - {user}, pending := r.pending - {order}))
    else (0, r.(pending := r.pending - {order}))
  }

  // ------------------------------------------------------------ status transitions

  /** Writing `status` creates the hash if it is missing. */
  function Marked(r: Redis, order: OrderId, status: Status): Redis {
    var was := if order in r.data then r.data[order] else Data(None, status, 0);
    r.(data := r.data[order := was.(status := status)])
  }

  predicate KeepsStatusOnAck(status: Status) {
    status in {RouteFailed, BrokerNack, Consuming, OrderCreated, Failed}
  }

  function SendSucceeded(r: Redis, order: OrderId): Redis {
    if order in r.data && KeepsStatusOnAck(r.data[order].status) then r
    else Marked(r.(pending := r.pending - {order}), order, Sent)
  }

  function SendFailed(r: Redis, order: OrderId): Redis {
    Marked(r.(pending := r.pending + {order}), order, BrokerNack)
  }

  function RouteFailure(r: Redis, order: OrderId, user: User): Redis {
    var marked := Marked(r.(pending := r.pending + {order}), order, RouteFailed);
    marked.(data := marked.data[order := marked.data[order].(user := Some(user))])
  }

  function BeforeRepublish(r: Redis, order: OrderId): Redis {
    var marked := Marked(r, order, Republishing);
    marked.(data := marked.data[order := marked.data[order].(retryCount := marked.data[order].retryCount + 1)])
  }

  function MarkedFailed(r: Redis, order: OrderId): Redis {
    Marked(r.(pending := r.pending - {order}, failed := r.failed + {order}), order, Failed)
  }

  function MarkedConsuming(r: Redis, order: OrderId): Redis {
    if order in r.data && r.data[order].status in {OrderCreated, Failed} then r
    else Marked(r, order, Consuming)
  }

  function PendingRemoved(r: Redis, order: OrderId): Redis {
    Marked(r.(pending := r.pending - {order}), order, OrderCreated)
  }

  // ------------------------------------------------------------ MySQL

  datatype Creation = Created | Duplicate | Refused

  /** `createVouchOrder`, one transaction: primary key and the unique key on the user make
      a second order a duplicate; without stock the insert is rolled back. */
  function CreateOrder(db: MySql, order: OrderId, user: User): (Creation, MySql) {
    if order in db.rows || user in db.rows.Values then (Duplicate, db)
    else if db.stock == 0 then (Refused, db)
    else (Created, MySql(db.rows[order := user], db.stock - 1))
  }

  // ------------------------------------------------------------ handlers

  /** Whether a send throws, leaves for the broker, or throws although the message has left. */
  datatype Sending = Throws | Leaves(id: SendId) | LeavesButThrows(id: SendId)

  /** Where a consumer fails: an exception before or inside the transaction, in
      `removePending`, or in the acknowledgement. */
  datatype Fault = NoFault | MarkFails | CreateFails | RemoveFails | AckFails

  /** Forwarding to the failed queue: confirmed, or not confirmed in time although the
      message may have arrived. */
  datatype Forward = Confirmed(tag: Tag) | Unconfirmed | UnconfirmedButArrived(tag: Tag)

  /** Where the failed-order listener ends: done, or an exception after which the recoverer
      parks the message or the broker requeues it. */
  datatype FailedFault = FailedDone | BeforeRestore | AfterRestore | AfterMark

  /** Where `republishOne` ends: normally, or by an exception. */
  datatype RepublishFault = RepublishDone | LookupThrows | RestoreThrows | MarkThrows

  /** How a delivery leaves the listener: handled, in the general exception handler, or by
      an exception of the duplicate handler, which nothing catches. */
  datatype Outcome = Handled | Caught | Escaped

  /** What one delivery of an order message does to Redis and MySQL. */
  function Processed(s: State, order: OrderId, user: User, fault: Fault): (Outcome, State) {
    if fault == MarkFails then (Caught, s)
    else
      var marked := s.(redis := MarkedConsuming(s.redis, order));
      if fault == CreateFails then (Caught, marked)
      else
        var (creation, db) := CreateOrder(s.db, order, user);
        if creation == Refused then (Caught, marked)
        else
          var failing := if creation == Duplicate then Escaped else Caught;
          var done := marked.(redis := PendingRemoved(marked.redis, order), db := db);
          match fault
          case RemoveFails => (failing, marked.(db := db))
          case AckFails => (failing, done)
          case _ => (Handled, done)
  }

  /** `listenVoucherOrder` for the copy with this tag. A copy that is neither acknowledged
      nor rejected goes back to its queue. */
  function Consumed(s: State, tag: Tag, fault: Fault, forward: Forward): State
    requires tag in s.copies
  {
    var (outcome, done) := Processed(s, s.copies[tag].order, s.copies[tag].user, fault);
    done.(copies := Settled(s.copies, tag, outcome, forward))
  }

  /** What becomes of the delivered copy. */
  function Settled(copies: map<Tag, Copy>, tag: Tag, outcome: Outcome, forward: Forward): map<Tag, Copy>
    requires tag in copies
  {
    var c := copies[tag];
    match outcome
    case Handled => copies - {tag}
    case Escaped => copies
    case Caught =>
      if c.rejections >= MAX_RETRY_COUNT then
        match forward
        case Confirmed(t) => (copies - {tag})[t := c.(place := FailedQueue)]
        case Unconfirmed => copies
        case UnconfirmedButArrived(t) => copies[t := c.(place := FailedQueue)]
      else copies[tag := c.(place := RetryQueue, rejections := c.rejections + 1)]
  }

  /** `listenFailedOrder` for the copy with this tag. */
  function FailureHandled(s: State, tag: Tag, fault: FailedFault, parked: bool): State
    requires tag in s.copies
  {
    var c := s.copies[tag];
    var kept := if parked then s.copies[tag := c.(place := ParkingQueue)] else s.copies;
    if fault == BeforeRestore then s.(copies := kept)
    else if c.order in s.db.rows then
      if fault == AfterRestore then s.(copies := kept)
      else s.(redis := PendingRemoved(s.redis, c.order), copies := if fault == AfterMark then kept else s.copies - {tag})
    else
      var restored := RestoreScript(s.redis, c.user, c.order).1;
      match fault
      case AfterRestore => s.(redis := restored, copies := kept)
      case AfterMark => s.(redis := MarkedFailed(restored, c.order), copies := kept)
      case _ => s.(redis := MarkedFailed(restored, c.order), copies := s.copies - {tag})
  }

  /** `republishOne` with the exception handler around it. */
  function Republished(s: State, order: OrderId, fault: RepublishFault, sending: Sending): State {
    if fault == LookupThrows then s.(redis := SendFailed(s.redis, order))
    else if order in s.db.rows then
      if fault == MarkThrows then s.(redis := SendFailed(s.redis, order))
      else s.(redis := PendingRemoved(s.redis, order))
    else if order !in s.redis.data then
      s.(redis := if fault == MarkThrows then SendFailed(s.redis, order) else MarkedFailed(s.redis, order))
    else if s.redis.data[order].user.None? then s.(redis := SendFailed(s.redis, order))
    else
      var d := s.redis.data[order];
      if d.retryCount >= MAX_REPUBLISH_COUNT then
        var restored := RestoreScript(s.redis, d.user.value, order).1;
        match fault
        case RestoreThrows => s.(redis := SendFailed(s.redis, order))
        case MarkThrows => s.(redis := SendFailed(restored, order))
        case _ => s.(redis := MarkedFailed(restored, order))
      else if fault == MarkThrows then s.(redis := SendFailed(s.redis, order))
      else SentOut(s.(redis := BeforeRepublish(s.redis, order)), order, d.user.value, sending)
  }

  /** A send and, if it throws, what its caller records. */
  function SentOut(s: State, order: OrderId, user: User, sending: Sending): State {
    match sending
    case Throws => s.(redis := SendFailed(s.redis, order))
    case Leaves(id) => s.(sends := s.sends[id := Send(order, user, OnWire)])
    case LeavesButThrows(id) =>
      s.(redis := SendFailed(s.redis, order), sends := s.sends[id := Send(order, user, OnWire)])
  }

  /** `republishOne` when the task dies between its two effects: it has restored the
      reservation but not marked the order as failed, or marked the order but not sent it.
      Where it has only one effect, dying is not starting or being done. */
  function Interrupted(s: State, order: OrderId): State {
    if order in s.db.rows || order !in s.redis.data || s.redis.data[order].user.None? then s
    else if s.redis.data[order].retryCount >= MAX_REPUBLISH_COUNT then
      s.(redis := RestoreScript(s.redis, s.redis.data[order].user.value, order).1)
    else s.(redis := BeforeRepublish(s.redis, order))
  }

  // ------------------------------------------------------------ steps and runs

  datatype Step =
    | Request(user: User, order: OrderId, activity: Activity)
    | FirstSend(order: OrderId, sending: Sending)
    | RequestDies(order: OrderId)
    | Route(id: SendId, tag: Tag)
    | Return(id: SendId)
    | Ack(id: SendId)
    | Nack(id: SendId)
    | Consume(tag: Tag, fault: Fault, forward: Forward)
    | ConsumerDies(tag: Tag, fault: Fault)
    | RetryExpires(tag: Tag)
    | HandleFailed(tag: Tag, failedFault: FailedFault, parked: bool)
    | ListDue(batch: set<OrderId>)
    | Republish(order: OrderId, republishFault: RepublishFault, sending: Sending)
    | RepublisherDies(order: OrderId)

  predicate FreshSend(s: State, sending: Sending) {
    !sending.Throws? ==> sending.id !in s.sends
  }

  predicate FreshForward(s: State, forward: Forward) {
    !forward.Unconfirmed? ==> forward.tag !in s.copies
  }

  predicate InPlace(s: State, tag: Tag, place: Place) {
    tag in s.copies && s.copies[tag].place == place
  }

  /** When a step can happen. The id generator never repeats an order id, and the broker
      returns an unroutable message before it acknowledges it. */
  predicate Possible(s: State, step: Step) {
    match step
    case Request(_, order, _) => order !in s.redis.data && order !in s.db.rows
    case FirstSend(order, sending) => order in s.toSend && FreshSend(s, sending)
    case RequestDies(order) => order in s.toSend
    case Route(id, tag) => id in s.sends && s.sends[id].state == OnWire && tag !in s.copies
    case Return(id) => id in s.sends && s.sends[id].state == OnWire
    case Ack(id) => id in s.sends && s.sends[id].state != OnWire
    case Nack(id) => id in s.sends
    case Consume(tag, _, forward) => InPlace(s, tag, OrderQueue) && FreshForward(s, forward)
    case ConsumerDies(tag, _) => InPlace(s, tag, OrderQueue)
    case RetryExpires(tag) => InPlace(s, tag, RetryQueue)
    case HandleFailed(tag, _, _) => InPlace(s, tag, FailedQueue)
    case ListDue(batch) => batch <= s.redis.pending && |batch| <= BATCH_SIZE
    case Republish(order, _, sending) => order in s.listed && FreshSend(s, sending)
    case RepublisherDies(order) => order in s.listed
  }

  function Next(s: State, step: Step): State
    requires Possible(s, step)
  {
    match step
    case Request(user, order, activity) =>
      var (reply, redis) := SeckillScript(s.redis, user, order, activity);
      s.(redis := redis, toSend := if reply == Accepted then s.toSend[order := user] else s.toSend)
    case FirstSend(order, sending) =>
      SentOut(s.(toSend := s.toSend - {order}), order, s.toSend[order], sending)
    case RequestDies(order) => s.(toSend := s.toSend - {order})
    case Route(id, tag) =>
      var m := s.sends[id];
      s.(sends := s.sends[id := m.(state := Routed)], copies := s.copies[tag := Copy(m.order, m.user, OrderQueue, 0)])
    case Return(id) =>
      var m := s.sends[id];
      s.(sends := s.sends[id := m.(state := Returned)], redis := RouteFailure(s.redis, m.order, m.user))
    case Ack(id) => s.(sends := s.sends - {id}, redis := SendSucceeded(s.redis, s.sends[id].order))
    case Nack(id) => s.(sends := s.sends - {id}, redis := SendFailed(s.redis, s.sends[id].order))
    case Consume(tag, fault, forward) => Consumed(s, tag, fault, forward)
    case ConsumerDies(tag, fault) => Processed(s, s.copies[tag].order, s.copies[tag].user, fault).1
    case RetryExpires(tag) => s.(copies := s.copies[tag := s.copies[tag].(place := OrderQueue)])
    case HandleFailed(tag, fault, parked) => FailureHandled(s, tag, fault, parked)
    case ListDue(batch) => s.(listed := s.listed + batch)
    case Republish(order, fault, sending) => Republished(s, order, fault, sending)
    case RepublisherDies(order) => Interrupted(s, order)
  }

  predicate PossibleRun(s: State, steps: seq<Step>)
    decreases |steps|
  {
    steps == [] || (Possible(s, steps[0]) && PossibleRun(Next(s, steps[0]), steps[1..]))
  }

  function After(s: State, steps: seq<Step>): State
    requires PossibleRun(s, steps)
    decreases |steps|
  {
    if steps == [] then s else After(Next(s, steps[0]), steps[1..])
  }

  /** Before the sale: nothing is under way; there may be orders and users from before. */
  predicate Initial(s: State) {
    s.redis.stock >= 0 && s.redis.reservation == map[] && s.redis.pending == {} && s.redis.data == map[] &&
    s.redis.failed == {} && s.sends == map[] && s.copies == map[] && s.toSend == map[] && s.listed == {} &&
    OneRowEach(s.db)
  }

  /** The unique key on user and voucher. */
  predicate OneRowEach(db: MySql) {
    forall a, b | a in db.rows && b in db.rows && db.rows[a] == db.rows[b] :: a == b
  }

  // ------------------------------------------------------------ what a client is told

  datatype Told = NotFound | Processing | Completed | OrderFailed

  /** `querySeckillOrderStatus` */
  function Query(s: State, order: OrderId, user: User): Told {
    if order in s.redis.data then
      var d := s.redis.data[order];
      if d.user != Some(user) then NotFound
      else match d.status case OrderCreated => Completed case Failed => OrderFailed case _ => Processing
    else if order in s.db.rows && s.db.rows[order] == user then Completed
    else NotFound
  }
}
