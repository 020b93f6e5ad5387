/** The order service's HTTP handlers (order_service/src/api/orders.py): POST /orders
    stores the order, commits, and only then publishes order_created; GET /orders lists
    the orders by descending id.

    The table, the outbox of published messages and the id sequence are explicit
    state; a `CreateFaults` value says which of commit, refresh and publish raise. */
module OrdersApi {

  import opened Wrappers
  import opened Decimals
  import opened PyValues
  import opened OrderRows
  import opened OrderDto
  import BillingEvents

  const ROUTING_KEY := "order_created"
  const CREATED_MESSAGE := "Order created and event published"

  /** A message handed to the exchange: its routing key and the dict json.dumps encodes. */
  datatype OrderMessage = OrderMessage(routingKey: string, body: map<string, PyValue>)

  datatype CreateFaults = CreateFaults(commitFails: bool, refreshFails: bool, publishFails: bool)

  /** How POST /orders ends: 201 with the response, or the exception that escapes. */
  datatype CreateOutcome =
    | Created(response: OrderResponse)
    | CommitRaised
    | RefreshRaised
    | SerializeRaised
    | PublishRaised

  datatype OrdersState = OrdersState(orders: seq<Order>, outbox: seq<OrderMessage>, nextId: int)

  predicate Consistent(s: OrdersState) {
    s.nextId >= 1 && IdsIncreasingBelow(s.orders, s.nextId)
  }

  /** The event dict built after the refresh: the stored row's id, user_id and amount
      (a float once read back from the Float column) and the current UTC time. */
  function EventBody(o: Order, eventTime: int): (body: map<string, PyValue>)
    ensures body.Keys == {"event", "order_id", "user_id", "amount", "created_at"}
  {
    map[
      "event" := PyStr(ROUTING_KEY),
      "order_id" := PyInt(o.id),
      "user_id" := PyInt(o.userId),
      "amount" := PyFloat(o.amount),
      "created_at" := PyIsoText(eventTime)
    ]
  }

  /** create_order: the commit flushes the INSERT (which takes the next id); a raise in
      commit or refresh rolls back and re-raises; after a refresh the event is
      serialised and published, then the response is returned.  A rollback after a
      successful commit cannot remove the committed row. */
  function CreateStep(s: OrdersState, req: OrderCreate, now: int, eventTime: int, faults: CreateFaults): (OrdersState, CreateOutcome)
  {
    var row := NewOrder(s.nextId, req.userId, req.amount, now);
    var taken := s.(nextId := s.nextId + 1);
    if faults.commitFails then (taken, CommitRaised)
    else
      var committed := taken.(orders := s.orders + [row]);
      if faults.refreshFails then (committed, RefreshRaised)
      else
        var body := EventBody(row, eventTime);
        if !JsonDumpsOk(body) then (committed, SerializeRaised)
        else if faults.publishFails then (committed, PublishRaised)
        else
          (committed.(outbox := s.outbox + [OrderMessage(ROUTING_KEY, body)]),
           Created(NewOrderResponse(row.id, row.createdAt, Some(CREATED_MESSAGE))))
  }

  class OrdersService {
    var orders: seq<Order>
    var outbox: seq<OrderMessage>
    var nextId: int

    function State(): OrdersState
      reads this
    {
      OrdersState(orders, outbox, nextId)
    }

    constructor ()
      ensures State() == OrdersState([], [], 1)
    {
      orders, outbox, nextId := [], [], 1;
    }

    method CreateOrder(req: OrderCreate, now: int, eventTime: int, faults: CreateFaults) returns (outcome: CreateOutcome)
      modifies this
      ensures (State(), outcome) == CreateStep(old(State()), req, now, eventTime, faults)
    {
      var newOrder := NewOrder(nextId, req.userId, req.amount, now);
      nextId := nextId + 1;
      if faults.commitFails {
        // rollback; the exception is re-raised
        return CommitRaised;
      }
      orders := orders + [newOrder];
      if faults.refreshFails {
        return RefreshRaised;
      }
      var event := EventBody(newOrder, eventTime);
      if !JsonDumpsOk(event) {
        return SerializeRaised;
      }
      if faults.publishFails {
        return PublishRaised;
      }
      outbox := outbox + [OrderMessage(ROUTING_KEY, event)];
      return Created(NewOrderResponse(newOrder.id, newOrder.createdAt, Some(CREATED_MESSAGE)));
    }
  }

  // ---- what create_order promises ----

  /** A successful create adds exactly one order with the request's user_id and amount,
      publishes exactly one message on "order_created" describing it, and answers with
      the new id and "Order created and event published". */
  lemma CreateSucceeds(s: OrdersState, req: OrderCreate, now: int, eventTime: int)
    ensures var (s', out) := CreateStep(s, req, now, eventTime, CreateFaults(false, false, false));
            && s'.orders == s.orders + [Order(s.nextId, req.userId, req.amount, now)]
            && s'.outbox == s.outbox + [OrderMessage("order_created", map[
                 "event" := PyStr("order_created"), "order_id" := PyInt(s.nextId),
                 "user_id" := PyInt(req.userId), "amount" := PyFloat(req.amount),
                 "created_at" := PyIsoText(eventTime)])]
            && out == Created(OrderResponse(s.nextId, now, "Order created and event published"))
  {
    var body := EventBody(NewOrder(s.nextId, req.userId, req.amount, now), eventTime);
    assert JsonDumpsOk(body);
  }

  /** The event dict is always serialisable: its amount is a float, not a Decimal. */
  lemma EventBodySerializable(o: Order, eventTime: int)
    ensures JsonDumpsOk(EventBody(o, eventTime))
  {
    var body := EventBody(o, eventTime);
    forall k | k in body ensures Encodable(body[k]) {
      assert k in {"event", "order_id", "user_id", "amount", "created_at"};
    }
  }

  /** A failing commit or refresh re-raises and publishes nothing; a failing commit
      also stores nothing. */
  lemma CommitFailurePublishesNothing(s: OrdersState, req: OrderCreate, now: int, eventTime: int, faults: CreateFaults)
    requires faults.commitFails || faults.refreshFails
    ensures var (s', out) := CreateStep(s, req, now, eventTime, faults);
            && s'.outbox == s.outbox
            && !out.Created?
            && (faults.commitFails ==> s'.orders == s.orders && out == CommitRaised)
  {
  }

  /** Publishing comes after the commit: a failing publish leaves the order stored. */
  lemma PublishFailureKeepsOrder(s: OrdersState, req: OrderCreate, now: int, eventTime: int, faults: CreateFaults)
    requires !faults.commitFails && !faults.refreshFails && faults.publishFails
    ensures var (s', out) := CreateStep(s, req, now, eventTime, faults);
            s'.orders == s.orders + [Order(s.nextId, req.userId, req.amount, now)] && s'.outbox == s.outbox && out == PublishRaised
  {
    EventBodySerializable(NewOrder(s.nextId, req.userId, req.amount, now), eventTime);
  }

  /** At most one message per call, and a 201 exactly when one was published. */
  lemma AtMostOnePublish(s: OrdersState, req: OrderCreate, now: int, eventTime: int, faults: CreateFaults)
    ensures var (s', out) := CreateStep(s, req, now, eventTime, faults);
            && s.outbox <= s'.outbox && |s'.outbox| <= |s.outbox| + 1
            && (out.Created? <==> |s'.outbox| == |s.outbox| + 1)
            && (out.Created? <==> faults == CreateFaults(false, false, false))
  {
    EventBodySerializable(NewOrder(s.nextId, req.userId, req.amount, now), eventTime);
  }

  /** Creating keeps the primary key of the orders table. */
  lemma CreateKeepsConsistent(s: OrdersState, req: OrderCreate, now: int, eventTime: int, faults: CreateFaults)
    requires Consistent(s)
    ensures Consistent(CreateStep(s, req, now, eventTime, faults).0)
  {
    if !faults.commitFails {
      AppendKeepsIds(s.orders, s.nextId, NewOrder(s.nextId, req.userId, req.amount, now));
    }
  }

  /** What the order service publishes the billing consumer decodes to the same order:
      the stored id, user_id and amount, and the event time. */
  lemma PublishedEventDecodes(o: Order, eventTime: int)
    ensures BillingEvents.DecodeOrderCreated(Dict(EventBody(o, eventTime)))
            == Ok(BillingEvents.OrderCreatedEvent("order_created", o.id, o.userId, o.amount, eventTime))
  {
    BillingEvents.DecodeComplete(EventBody(o, eventTime),
      BillingEvents.OrderCreatedEvent("order_created", o.id, o.userId, o.amount, eventTime));
  }

  // ---- GET /orders: SELECT id, created_at FROM orders ORDER BY id DESC ----

  /** Ids do not increase along xs. */
  predicate DescendingIds(xs: seq<Order>) {
    forall i, j :: 0 <= i < j < |xs| ==> xs[i].id >= xs[j].id
  }

  /** Places o in a list ordered by descending id. */
  function InsertDesc(o: Order, xs: seq<Order>): (r: seq<Order>)
    ensures multiset(r) == multiset(xs) + multiset{o}
    ensures |r| == |xs| + 1
  {
    if xs == [] || o.id >= xs[0].id then [o] + xs
    else
      assert xs == [xs[0]] + xs[1..];
      [xs[0]] + InsertDesc(o, xs[1..])
  }

  /** The rows ordered by descending id. */
  function SortByIdDesc(rows: seq<Order>): (r: seq<Order>)
    ensures multiset(r) == multiset(rows)
  {
    if rows == [] then []
    else
      assert rows == [rows[0]] + rows[1..];
      InsertDesc(rows[0], SortByIdDesc(rows[1..]))
  }

  lemma {:induction false} InsertDescSorted(o: Order, xs: seq<Order>)
    requires DescendingIds(xs)
    ensures DescendingIds(InsertDesc(o, xs))
    decreases |xs|
  {
    if xs == [] || o.id >= xs[0].id {
    } else {
      InsertDescSorted(o, xs[1..]);
      var tail := InsertDesc(o, xs[1..]);
      assert forall k :: 0 <= k < |tail| ==> tail[k] in multiset(xs[1..]) + multiset{o};
      forall k | 0 <= k < |tail| ensures xs[0].id >= tail[k].id {
        assert tail[k] in multiset(xs[1..]) + multiset{o};
        if tail[k] != o {
          assert tail[k] in xs[1..];
        }
      }
    }
  }

  /** The sort yields descending ids. */
  lemma {:induction false} SortSorted(rows: seq<Order>)
    ensures DescendingIds(SortByIdDesc(rows))
    decreases |rows|
  {
    if rows != [] {
      SortSorted(rows[1..]);
      InsertDescSorted(rows[0], SortByIdDesc(rows[1..]));
    }
  }

  /** list_orders: one response per row, ordered by descending id, each with "OK". */
  function ListOrders(rows: seq<Order>): (r: seq<OrderResponse>)
    ensures |r| == |rows|
    ensures forall i :: 0 <= i < |r| ==> r[i].message == "OK"
  {
    var sorted := SortByIdDesc(rows);
    assert |sorted| == |multiset(sorted)| == |rows|;
    seq(|sorted|, i requires 0 <= i < |sorted| => NewOrderResponse(sorted[i].id, sorted[i].createdAt, Some("OK")))
  }

  /** The listing is the table ordered by descending id: entry i answers for the i-th
      row of that order, the entries' ids do not increase, and every row appears as
      often as it is stored. */
  lemma ListOrdersIsSortedTable(rows: seq<Order>)
    ensures var sorted := SortByIdDesc(rows);
            var r := ListOrders(rows);
            && multiset(sorted) == multiset(rows)
            && |sorted| == |r|
            && (forall i :: 0 <= i < |r| ==> r[i] == OrderResponse(sorted[i].id, sorted[i].createdAt, "OK"))
            && (forall i, j :: 0 <= i < j < |r| ==> r[i].orderId >= r[j].orderId)
  {
    SortSorted(rows);
    var sorted := SortByIdDesc(rows);
    assert |sorted| == |multiset(sorted)| == |rows|;
  }

  function Reverse(xs: seq<Order>): (r: seq<Order>)
    ensures |r| == |xs|
    ensures forall i :: 0 <= i < |xs| ==> r[i] == xs[|xs| - 1 - i]
  {
    if xs == [] then [] else Reverse(xs[1..]) + [xs[0]]
  }

  lemma {:induction false} InsertBelowAll(o: Order, xs: seq<Order>)
    requires forall k :: 0 <= k < |xs| ==> o.id < xs[k].id
    ensures InsertDesc(o, xs) == xs + [o]
    decreases |xs|
  {
    if xs != [] {
      InsertBelowAll(o, xs[1..]);
      assert [xs[0]] + (xs[1..] + [o]) == xs + [o];
    }
  }

  /** On a table the service built (ids increasing with insertion), the listing shows
      the orders newest first: the reverse of insertion order. */
  lemma {:induction false} ListOrdersNewestFirst(rows: seq<Order>, next: int)
    requires IdsIncreasingBelow(rows, next)
    ensures SortByIdDesc(rows) == Reverse(rows)
    decreases |rows|
  {
    if rows != [] {
      assert IdsIncreasingBelow(rows[1..], next);
      ListOrdersNewestFirst(rows[1..], next);
      InsertBelowAll(rows[0], Reverse(rows[1..]));
    }
  }
}
