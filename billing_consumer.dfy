/** The billing service's OrderConsumer (billing_service/src/consumers/order_consumer.py):
    each delivery from the `billing_orders_queue` is decoded, turned into a payment row
    inside its own session, answered with a payment_processed event, and acknowledged.

    State is explicit: the committed `payments` table, the `outbox` of messages handed
    to the exchange, the log of acknowledged delivery tags, and the next value of the
    payments id sequence.  The store and the broker are the environment: a `Faults`
    value says which of their calls raise during one delivery. */
module BillingConsumer {

  import opened Wrappers
  import opened Decimals
  import opened PyValues
  import opened BillingEvents
  import opened Payments

  /** The queue `setup` declares (durable, not auto-deleted) and the routing key it binds. */
  const QUEUE_NAME := "billing_orders_queue"
  const QUEUE_DURABLE := true
  const QUEUE_AUTO_DELETE := false
  const BINDING_KEY := "order_created"
  /** The routing key results are published with. */
  const RESULT_ROUTING_KEY := "payment_processed"

  const STATUS_PROCESSING := "processing"
  const STATUS_COMPLETED := "completed"

  /** One delivery: its tag and what json.loads makes of its body. */
  datatype Delivery = Delivery(tag: nat, body: Loaded)

  /** Which calls raise: session.flush(), session.commit(), exchange.publish(). */
  datatype Faults = Faults(flushFails: bool, commitFails: bool, publishFails: bool)

  const NO_FAULTS := Faults(false, false, false)

  /** A message handed to the exchange. */
  datatype Published = Published(routingKey: string, event: PaymentProcessedEvent)

  /** What the handler logs for one delivery. */
  datatype Handled =
    | Undecodable(error: DecodeError)            // logged at :70
    | PaymentFailed(orderId: int)                // logged at :67
    | PaymentProcessed(orderId: int, paymentId: int)   // logged at :65
    | PublishRaised(orderId: int, paymentId: int)      // logged at :70

  /** The clock readings of one delivery, taken at three different moments and related
      by nothing: the database's now() when the INSERT of the flush runs (the row's
      created_at, payments.py:14), datetime.utcnow() for the row's processed_at (:91),
      and datetime.utcnow() again when publish_result builds the event (:116). */
  datatype Clock = Clock(insertedAt: int, paidAt: int, publishedAt: int)

  datatype ConsumerState = ConsumerState(
    payments: seq<Payment>, outbox: seq<Published>, acked: seq<nat>, nextId: int)

  /** The table's primary key holds and the sequence starts at 1. */
  predicate Consistent(s: ConsumerState) {
    s.nextId >= 1 && IdsIncreasingBelow(s.payments, s.nextId)
  }

  /** process_payment: insert a "processing" row, flush (the row takes the next id),
      set status "completed" and processed_at, commit, and return the id; any raise rolls
      the session back and returns None.  The sequence value taken by a flush is not
      given back by a rollback. */
  function PaymentStep(s: ConsumerState, order: OrderCreatedEvent, clock: Clock, faults: Faults): (ConsumerState, Option<int>)
  {
    if faults.flushFails then (s, None)
    else
      var taken := s.(nextId := s.nextId + 1);
      if faults.commitFails then (taken, None)
      else
        var row := Payment(s.nextId, order.orderId, order.userId, order.amount, STATUS_COMPLETED, Some(clock.paidAt), clock.insertedAt);
        (taken.(payments := s.payments + [row]), Some(s.nextId))
  }

  /** publish_result: build the event stamped `eventTime`, serialise it (json.dumps of model_dump in `mode`)
      and publish it on "payment_processed".  The result is false when either step raises. */
  function PublishStep(s: ConsumerState, orderId: int, userId: int, paymentId: int, amount: Decimal,
                       status: string, eventTime: int, faults: Faults, mode: DumpMode): (ConsumerState, bool)
  {
    var event := NewPaymentProcessed(orderId, userId, paymentId, amount, status, eventTime);
    if !JsonDumpsOk(ModelDump(event, mode)) then (s, false)
    else if faults.publishFails then (s, false)
    else (s.(outbox := s.outbox + [Published(RESULT_ROUTING_KEY, event)]), true)
  }

  /** process_message: everything inside `message.process()` is wrapped in a try that
      catches every Exception, so the block always exits normally and the delivery is
      acknowledged whatever happened. */
  function HandleMessage(s: ConsumerState, msg: Delivery, clock: Clock, faults: Faults, mode: DumpMode): (ConsumerState, Handled)
  {
    var (s', handled) :=
      match DecodeOrderCreated(msg.body)
      case Err(e) => (s, Undecodable(e))
      case Ok(ev) =>
        var (s1, paymentId) := PaymentStep(s, ev, clock, faults);
        if paymentId.Some? && paymentId.value != 0 then
          var (s2, ok) := PublishStep(s1, ev.orderId, ev.userId, paymentId.value, ev.amount, STATUS_COMPLETED, clock.publishedAt, faults, mode);
          (s2, if ok then PaymentProcessed(ev.orderId, paymentId.value) else PublishRaised(ev.orderId, paymentId.value))
        else
          (s1, PaymentFailed(ev.orderId));
    (s'.(acked := s.acked + [msg.tag]), handled)
  }

  class OrderConsumer {
    /** How publish_result dumps the event before json.dumps; PythonMode is the code at
        order_consumer.py:120. */
    const dumpMode: DumpMode
    var payments: seq<Payment>
    var outbox: seq<Published>
    var acked: seq<nat>
    var nextId: int

    function State(): ConsumerState
      reads this
    {
      ConsumerState(payments, outbox, acked, nextId)
    }

    constructor (mode: DumpMode)
      ensures dumpMode == mode
      ensures State() == ConsumerState([], [], [], 1)
    {
      dumpMode := mode;
      payments, outbox, acked, nextId := [], [], [], 1;
    }

    method ProcessPayment(order: OrderCreatedEvent, clock: Clock, faults: Faults) returns (paymentId: Option<int>)
      modifies this
      ensures (State(), paymentId) == PaymentStep(old(State()), order, clock, faults)
    {
      if faults.flushFails {
        // session.flush() raised: rollback, nothing was inserted
        return None;
      }
      // the INSERT of the flush takes the next id and the database's created_at
      var payment := Payment(nextId, order.orderId, order.userId, order.amount, STATUS_PROCESSING, None, clock.insertedAt);
      nextId := nextId + 1;
      payment := payment.(status := STATUS_COMPLETED, processedAt := Some(clock.paidAt));
      if faults.commitFails {
        // session.commit() raised: rollback, the row is gone
        return None;
      }
      payments := payments + [payment];
      return Some(payment.id);
    }

    method PublishResult(orderId: int, userId: int, paymentId: int, amount: Decimal, status: string,
                         eventTime: int, faults: Faults) returns (ok: bool)
      modifies this
      ensures (State(), ok) == PublishStep(old(State()), orderId, userId, paymentId, amount, status, eventTime, faults, dumpMode)
    {
      var event := NewPaymentProcessed(orderId, userId, paymentId, amount, status, eventTime);
      var body := ModelDump(event, dumpMode);
      if !JsonDumpsOk(body) {
        // json.dumps raised TypeError
        return false;
      }
      if faults.publishFails {
        return false;
      }
      outbox := outbox + [Published(RESULT_ROUTING_KEY, event)];
      return true;
    }

    method ProcessMessage(msg: Delivery, clock: Clock, faults: Faults) returns (handled: Handled)
      modifies this
      ensures (State(), handled) == HandleMessage(old(State()), msg, clock, faults, dumpMode)
    {
      var decoded := DecodeOrderCreated(msg.body);
      if decoded.Err? {
        handled := Undecodable(decoded.error);
      } else {
        var orderEvent := decoded.value;
        var paymentId := ProcessPayment(orderEvent, clock, faults);
        if paymentId.Some? && paymentId.value != 0 {
          var ok := PublishResult(orderEvent.orderId, orderEvent.userId, paymentId.value,
                                  orderEvent.amount, STATUS_COMPLETED, clock.publishedAt, faults);
          handled := if ok then PaymentProcessed(orderEvent.orderId, paymentId.value)
                     else PublishRaised(orderEvent.orderId, paymentId.value);
        } else {
          handled := PaymentFailed(orderEvent.orderId);
        }
      }
      // leaving `async with message.process()` normally acknowledges the delivery
      acked := acked + [msg.tag];
    }
  }

  // ---- what the handler promises ----

  /** Every delivery is acknowledged exactly once, whatever the body and the faults. */
  lemma AlwaysAcknowledged(s: ConsumerState, msg: Delivery, clock: Clock, faults: Faults, mode: DumpMode)
    ensures HandleMessage(s, msg, clock, faults, mode).0.acked == s.acked + [msg.tag]
  {
  }

  /** A body that does not decode leaves the table, the outbox and the sequence alone. */
  lemma UndecodableChangesNothing(s: ConsumerState, msg: Delivery, clock: Clock, faults: Faults, mode: DumpMode)
    requires DecodeOrderCreated(msg.body).Err?
    ensures var (s', h) := HandleMessage(s, msg, clock, faults, mode);
            s' == s.(acked := s.acked + [msg.tag]) && h == Undecodable(DecodeOrderCreated(msg.body).error)
  {
  }

  /** A successful process_payment adds exactly one row: the event's order, user and
      amount, status "completed", processed_at set, and the id it returns. */
  lemma PaymentAddsOneRow(s: ConsumerState, order: OrderCreatedEvent, clock: Clock, faults: Faults)
    requires !faults.flushFails && !faults.commitFails
    ensures var (s', id) := PaymentStep(s, order, clock, faults);
            && id == Some(s.nextId)
            && s'.payments == s.payments + [Payment(s.nextId, order.orderId, order.userId, order.amount, "completed", Some(clock.paidAt), clock.insertedAt)]
            && s'.outbox == s.outbox
  {
  }

  /** A raise inside process_payment rolls back: no row remains and None is returned. */
  lemma PaymentRollback(s: ConsumerState, order: OrderCreatedEvent, clock: Clock, faults: Faults)
    requires faults.flushFails || faults.commitFails
    ensures var (s', id) := PaymentStep(s, order, clock, faults);
            id == None && s'.payments == s.payments && s'.outbox == s.outbox
  {
  }

  /** The outbox only grows, by at most one message, and a new message is the result of
      a committed payment: routing key "payment_processed", status "completed", the
      event's order, user and amount, the id of the row just committed, and the time of
      the publish-time reading, not the row's processed_at. */
  lemma PublishOnlyAfterCommit(s: ConsumerState, msg: Delivery, clock: Clock, faults: Faults, mode: DumpMode)
    ensures var s' := HandleMessage(s, msg, clock, faults, mode).0;
            && s.outbox <= s'.outbox
            && |s'.outbox| <= |s.outbox| + 1
            && (|s'.outbox| == |s.outbox| + 1 ==>
                  && DecodeOrderCreated(msg.body).Ok?
                  && var ev := DecodeOrderCreated(msg.body).value;
                  && |s'.payments| == |s.payments| + 1
                  && var row := s'.payments[|s.payments|];
                  && row.id == s.nextId && row.orderId == ev.orderId && row.status == "completed"
                  && s'.outbox[|s.outbox|] == Published("payment_processed",
                       PaymentProcessedEvent("payment_processed", ev.orderId, ev.userId, row.id, ev.amount, "completed", clock.publishedAt)))
  {
  }

  /** When process_payment returns None nothing is published. */
  lemma FailedPaymentPublishesNothing(s: ConsumerState, msg: Delivery, clock: Clock, faults: Faults, mode: DumpMode)
    requires faults.flushFails || faults.commitFails
    ensures var (s', h) := HandleMessage(s, msg, clock, faults, mode);
            s'.outbox == s.outbox && s'.payments == s.payments
  {
  }

  /** The commit comes before serialisation and publish: when either raises, the
      committed payment stays, nothing is published, and the error is swallowed. */
  lemma PublishFailureKeepsPayment(s: ConsumerState, msg: Delivery, clock: Clock, faults: Faults, mode: DumpMode)
    requires s.nextId >= 1  // the id is truthy, as every id of the sequence is
    requires DecodeOrderCreated(msg.body).Ok?
    requires !faults.flushFails && !faults.commitFails
    requires faults.publishFails || mode == PythonMode
    ensures var ev := DecodeOrderCreated(msg.body).value;
            var (s', h) := HandleMessage(s, msg, clock, faults, mode);
            && s'.payments == s.payments + [Payment(s.nextId, ev.orderId, ev.userId, ev.amount, "completed", Some(clock.paidAt), clock.insertedAt)]
            && s'.outbox == s.outbox
            && s'.acked == s.acked + [msg.tag]
            && h == PublishRaised(ev.orderId, s.nextId)
  {
    var ev := DecodeOrderCreated(msg.body).value;
    if mode == PythonMode {
      PythonDumpNotSerializable(NewPaymentProcessed(ev.orderId, ev.userId, s.nextId, ev.amount, STATUS_COMPLETED, clock.publishedAt));
    }
  }

  /** With the json-mode dump and no faults, a decodable delivery yields exactly one
      payment, stamped with the INSERT and processing readings, and exactly one result
      message, stamped with the later publish-time reading. */
  lemma HappyPath(s: ConsumerState, msg: Delivery, clock: Clock)
    requires s.nextId >= 1  // the id is truthy, as every id of the sequence is
    requires DecodeOrderCreated(msg.body).Ok?
    ensures var ev := DecodeOrderCreated(msg.body).value;
            var (s', h) := HandleMessage(s, msg, clock, NO_FAULTS, JsonMode);
            && s'.payments == s.payments + [Payment(s.nextId, ev.orderId, ev.userId, ev.amount, "completed", Some(clock.paidAt), clock.insertedAt)]
            && s'.outbox == s.outbox + [Published("payment_processed",
                 PaymentProcessedEvent("payment_processed", ev.orderId, ev.userId, s.nextId, ev.amount, "completed", clock.publishedAt))]
            && h == PaymentProcessed(ev.orderId, s.nextId)
  {
    var ev := DecodeOrderCreated(msg.body).value;
    JsonDumpSerializable(NewPaymentProcessed(ev.orderId, ev.userId, s.nextId, ev.amount, STATUS_COMPLETED, clock.publishedAt));
  }

  /** As written (python-mode dump) no result message is ever published. */
  lemma AsWrittenNeverPublishes(s: ConsumerState, msg: Delivery, clock: Clock, faults: Faults)
    ensures HandleMessage(s, msg, clock, faults, PythonMode).0.outbox == s.outbox
  {
    match DecodeOrderCreated(msg.body)
    case Err(_) =>
    case Ok(ev) =>
      var (s1, paymentId) := PaymentStep(s, ev, clock, faults);
      if paymentId.Some? && paymentId.value != 0 {
        PythonDumpNotSerializable(NewPaymentProcessed(ev.orderId, ev.userId, paymentId.value, ev.amount, STATUS_COMPLETED, clock.publishedAt));
      }
  }

  /** Handling keeps the primary key of the payments table. */
  lemma HandleKeepsConsistent(s: ConsumerState, msg: Delivery, clock: Clock, faults: Faults, mode: DumpMode)
    requires Consistent(s)
    ensures Consistent(HandleMessage(s, msg, clock, faults, mode).0)
  {
    match DecodeOrderCreated(msg.body)
    case Err(_) =>
    case Ok(ev) =>
      if !faults.flushFails && !faults.commitFails {
        AppendKeepsIds(s.payments, s.nextId,
          Payment(s.nextId, ev.orderId, ev.userId, ev.amount, STATUS_COMPLETED, Some(clock.paidAt), clock.insertedAt));
      }
  }

  /** Without faults a decodable delivery appends the completed row and advances the
      sequence by one. */
  lemma NoFaultPayment(s: ConsumerState, msg: Delivery, clock: Clock, mode: DumpMode)
    requires DecodeOrderCreated(msg.body).Ok?
    ensures var ev := DecodeOrderCreated(msg.body).value;
            var s' := HandleMessage(s, msg, clock, NO_FAULTS, mode).0;
            && s'.payments == s.payments + [Payment(s.nextId, ev.orderId, ev.userId, ev.amount, STATUS_COMPLETED, Some(clock.paidAt), clock.insertedAt)]
            && s'.nextId == s.nextId + 1
  {
  }

  /** There is no deduplication by order_id: delivering the same message twice, without
      faults, leaves two more payments for that order. */
  lemma RedeliveryDuplicatesPayment(s: ConsumerState, msg: Delivery, c1: Clock, c2: Clock, mode: DumpMode)
    requires DecodeOrderCreated(msg.body).Ok?
    ensures var orderId := DecodeOrderCreated(msg.body).value.orderId;
            var s1 := HandleMessage(s, msg, c1, NO_FAULTS, mode).0;
            var s2 := HandleMessage(s1, msg, c2, NO_FAULTS, mode).0;
            && CountForOrder(s2.payments, orderId) == CountForOrder(s.payments, orderId) + 2
            && s2.payments[|s.payments|].id != s2.payments[|s.payments| + 1].id
  {
    var ev := DecodeOrderCreated(msg.body).value;
    var s1 := HandleMessage(s, msg, c1, NO_FAULTS, mode).0;
    var r1 := Payment(s.nextId, ev.orderId, ev.userId, ev.amount, STATUS_COMPLETED, Some(c1.paidAt), c1.insertedAt);
    var r2 := Payment(s.nextId + 1, ev.orderId, ev.userId, ev.amount, STATUS_COMPLETED, Some(c2.paidAt), c2.insertedAt);
    NoFaultPayment(s, msg, c1, mode);
    NoFaultPayment(s1, msg, c2, mode);
    var s2 := HandleMessage(s1, msg, c2, NO_FAULTS, mode).0;
    assert s2.payments == (s.payments + [r1]) + [r2];
    CountAppend(s.payments, r1, ev.orderId);
    CountAppend(s.payments + [r1], r2, ev.orderId);
    assert s2.payments[|s.payments|] == r1 && s2.payments[|s.payments| + 1] == r2;
  }
}
