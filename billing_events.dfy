/** The billing service's wire records (billing_service/src/models/events.py): the
    order_created event it consumes and the payment_processed event it emits, the
    pydantic validation that builds the first from a decoded dict, and the model_dump
    that turns the second into a dict for json.dumps. */
module BillingEvents {

  import opened Wrappers
  import opened Decimals
  import opened PyValues

  const ORDER_CREATED := "order_created"
  const PAYMENT_PROCESSED := "payment_processed"

  /** OrderCreatedEvent: `event` is a free str defaulting to "order_created"; the other
      four fields are required; no field carries a bound. */
  datatype OrderCreatedEvent = OrderCreatedEvent(
    event: string, orderId: int, userId: int, amount: Decimal, createdAt: int)

  /** PaymentProcessedEvent: `event` defaults to "payment_processed"; status is a free str. */
  datatype PaymentProcessedEvent = PaymentProcessedEvent(
    event: string, orderId: int, userId: int, paymentId: int, amount: Decimal,
    status: string, processedAt: int)

  /** Why a body does not become an OrderCreatedEvent: json.loads raised, the document
      is not a dict (so `**event_data` raises TypeError), or pydantic rejected the
      listed fields (ValidationError). */
  datatype DecodeError = JsonError | NotAMapping | ValidationError(fields: seq<string>)

  /** `fields` describes event `e`: each required key is present and coerces to e's
      field, and `event` is the given str or, when absent, "order_created". */
  predicate Describes(fields: map<string, PyValue>, e: OrderCreatedEvent) {
    && (if "event" in fields then AsStr(fields["event"]) == Some(e.event) else e.event == ORDER_CREATED)
    && "order_id" in fields && AsInt(fields["order_id"]) == Some(e.orderId)
    && "user_id" in fields && AsInt(fields["user_id"]) == Some(e.userId)
    && "amount" in fields && AsDecimal(fields["amount"]) == Some(e.amount)
    && "created_at" in fields && AsTime(fields["created_at"]) == Some(e.createdAt)
  }

  /** The fields pydantic reports as invalid or missing, in declaration order. */
  function InvalidFields(f: map<string, PyValue>): seq<string>
  {
    (if "event" in f && AsStr(f["event"]).None? then ["event"] else [])
    + (if Field(f, "order_id", AsInt).None? then ["order_id"] else [])
    + (if Field(f, "user_id", AsInt).None? then ["user_id"] else [])
    + (if Field(f, "amount", AsDecimal).None? then ["amount"] else [])
    + (if Field(f, "created_at", AsTime).None? then ["created_at"] else [])
  }

  /** json.loads followed by OrderCreatedEvent(**event_data). */
  function DecodeOrderCreated(body: Loaded): (r: Result<OrderCreatedEvent, DecodeError>)
    ensures r.Ok? ==> body.Dict? && Describes(body.fields, r.value)
    ensures body.Malformed? ==> r == Err(JsonError)
    ensures body.NotDict? ==> r == Err(NotAMapping)
  {
    match body
    case Malformed => Err(JsonError)
    case NotDict => Err(NotAMapping)
    case Dict(f) =>
      var bad := InvalidFields(f);
      if bad != [] then Err(ValidationError(bad))
      else
        Ok(OrderCreatedEvent(
          if "event" in f then AsStr(f["event"]).value else ORDER_CREATED,
          Field(f, "order_id", AsInt).value,
          Field(f, "user_id", AsInt).value,
          Field(f, "amount", AsDecimal).value,
          Field(f, "created_at", AsTime).value))
  }

  /** Every dict that describes an event decodes to exactly that event. */
  lemma DecodeComplete(f: map<string, PyValue>, e: OrderCreatedEvent)
    requires Describes(f, e)
    ensures DecodeOrderCreated(Dict(f)) == Ok(e)
  {
    assert InvalidFields(f) == [];
  }

  /** A dict lacking one of the four required keys is rejected, naming that key. */
  lemma MissingFieldRejected(f: map<string, PyValue>, key: string)
    requires key in {"order_id", "user_id", "amount", "created_at"} && key !in f
    ensures DecodeOrderCreated(Dict(f)).Err?
    ensures key in DecodeOrderCreated(Dict(f)).error.fields
  {
  }

  /** The `event` tag is not checked: replacing it by any other str still decodes, to
      the same event with that tag. */
  lemma AnyTagDecodes(f: map<string, PyValue>, e: OrderCreatedEvent, tag: string)
    requires Describes(f, e)
    ensures DecodeOrderCreated(Dict(f["event" := PyStr(tag)])) == Ok(e.(event := tag))
  {
    DecodeComplete(f["event" := PyStr(tag)], e.(event := tag));
  }

  /** A Unix timestamp in `created_at` is a datetime like any other: an int there still
      decodes, to the instant it denotes. */
  lemma TimestampCreatedAt(f: map<string, PyValue>, e: OrderCreatedEvent, t: int)
    requires Describes(f, e)
    ensures DecodeOrderCreated(Dict(f["created_at" := PyInt(t)])) == Ok(e.(createdAt := IntTimestamp(t)))
  {
    DecodeComplete(f["created_at" := PyInt(t)], e.(createdAt := IntTimestamp(t)));
  }

  /** PaymentProcessedEvent(...) with the default `event`. */
  function NewPaymentProcessed(orderId: int, userId: int, paymentId: int, amount: Decimal,
                               status: string, processedAt: int): (e: PaymentProcessedEvent)
    ensures e.event == PAYMENT_PROCESSED && e.status == status
    ensures e.orderId == orderId && e.userId == userId && e.paymentId == paymentId
    ensures e.amount == amount && e.processedAt == processedAt
  {
    PaymentProcessedEvent(PAYMENT_PROCESSED, orderId, userId, paymentId, amount, status, processedAt)
  }

  /** model_dump() keeps Python objects (PythonMode); model_dump(mode="json") turns
      Decimal and datetime values into str (JsonMode). */
  datatype DumpMode = PythonMode | JsonMode

  function ModelDump(e: PaymentProcessedEvent, mode: DumpMode): map<string, PyValue>
  {
    map[
      "event" := PyStr(e.event),
      "order_id" := PyInt(e.orderId),
      "user_id" := PyInt(e.userId),
      "payment_id" := PyInt(e.paymentId),
      "amount" := if mode == PythonMode then PyDecimal(e.amount) else PyDecimalText(e.amount),
      "status" := PyStr(e.status),
      "processed_at" := if mode == PythonMode then PyDateTime(e.processedAt) else PyIsoText(e.processedAt)
    ]
  }

  /** As written at order_consumer.py:120: the python-mode dump carries a Decimal and a
      datetime, so json.dumps raises TypeError for every result event. */
  lemma PythonDumpNotSerializable(e: PaymentProcessedEvent)
    ensures !JsonDumpsOk(ModelDump(e, PythonMode))
  {
    assert "amount" in ModelDump(e, PythonMode);
  }

  /** The json-mode dump holds only str and int values, so json.dumps accepts it. */
  lemma JsonDumpSerializable(e: PaymentProcessedEvent)
    ensures JsonDumpsOk(ModelDump(e, JsonMode))
  {
  }
}
