/** The order service's event records (order_service/src/models/events.py). */
module OrderEvents {

  import opened Wrappers
  import opened PyValues
  import BillingEvents

  /** The order-side OrderCreatedEvent is declared field for field like the billing
      service's, with the same "order_created" default, so it is the same record. */
  type OrderCreatedEvent = BillingEvents.OrderCreatedEvent

  const PAYMENT_PROCESSED := "payment_processed"

  /** The order-side PaymentProcessedEvent: only order_id, user_id, status and
      processed_at; no payment_id and no amount; status is a free str. */
  datatype PaymentProcessedEvent = PaymentProcessedEvent(
    event: string, orderId: int, userId: int, status: string, processedAt: int)

  /** json.loads followed by PaymentProcessedEvent(**data): keys the record does not
      declare are ignored, `event` defaults to "payment_processed". */
  function DecodePaymentProcessed(body: Loaded): (r: Result<PaymentProcessedEvent, BillingEvents.DecodeError>)
    ensures body.Malformed? ==> r == Err(BillingEvents.JsonError)
    ensures body.NotDict? ==> r == Err(BillingEvents.NotAMapping)
    ensures r.Ok? ==> && body.Dict?
                      && (if "event" in body.fields then AsStr(body.fields["event"]) == Some(r.value.event) else r.value.event == "payment_processed")
                      && Field(body.fields, "order_id", AsInt) == Some(r.value.orderId)
                      && Field(body.fields, "user_id", AsInt) == Some(r.value.userId)
                      && Field(body.fields, "status", AsStr) == Some(r.value.status)
                      && Field(body.fields, "processed_at", AsTime) == Some(r.value.processedAt)
  {
    match body
    case Malformed => Err(BillingEvents.JsonError)
    case NotDict => Err(BillingEvents.NotAMapping)
    case Dict(f) =>
      var bad :=
        (if "event" in f && AsStr(f["event"]).None? then ["event"] else [])
        + (if Field(f, "order_id", AsInt).None? then ["order_id"] else [])
        + (if Field(f, "user_id", AsInt).None? then ["user_id"] else [])
        + (if Field(f, "status", AsStr).None? then ["status"] else [])
        + (if Field(f, "processed_at", AsTime).None? then ["processed_at"] else []);
      if bad != [] then Err(BillingEvents.ValidationError(bad))
      else
        Ok(PaymentProcessedEvent(
          if "event" in f then AsStr(f["event"]).value else PAYMENT_PROCESSED,
          Field(f, "order_id", AsInt).value,
          Field(f, "user_id", AsInt).value,
          Field(f, "status", AsStr).value,
          Field(f, "processed_at", AsTime).value))
  }

  /** What the billing service publishes (its event dumped in json mode) is accepted
      by the order-side record, which keeps the shared fields and drops payment_id and
      amount. */
  lemma BillingResultAccepted(e: BillingEvents.PaymentProcessedEvent)
    ensures DecodePaymentProcessed(Dict(BillingEvents.ModelDump(e, BillingEvents.JsonMode)))
            == Ok(PaymentProcessedEvent(e.event, e.orderId, e.userId, e.status, e.processedAt))
  {
    var f := BillingEvents.ModelDump(e, BillingEvents.JsonMode);
    assert f["processed_at"] == PyIsoText(e.processedAt);
    assert f["order_id"] == PyInt(e.orderId);
    assert f["user_id"] == PyInt(e.userId);
  }

  /** A body whose processed_at is a Unix timestamp decodes, to the instant it denotes. */
  lemma TimestampProcessedAt(orderId: int, userId: int, status: string, t: int)
    ensures DecodePaymentProcessed(Dict(map["order_id" := PyInt(orderId), "user_id" := PyInt(userId),
                                            "status" := PyStr(status), "processed_at" := PyInt(t)]))
            == Ok(PaymentProcessedEvent(PAYMENT_PROCESSED, orderId, userId, status, IntTimestamp(t)))
  {
    var f := map["order_id" := PyInt(orderId), "user_id" := PyInt(userId),
                 "status" := PyStr(status), "processed_at" := PyInt(t)];
    assert "event" !in f;
    assert f["processed_at"] == PyInt(t);
  }

  /** A dict lacking status is rejected, naming it: the field has no default. */
  lemma StatusRequired(f: map<string, PyValue>)
    requires "status" !in f
    ensures DecodePaymentProcessed(Dict(f)).Err?
    ensures "status" in DecodePaymentProcessed(Dict(f)).error.fields
  {
  }
}
