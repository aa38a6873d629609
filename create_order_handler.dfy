/** The create-order Lambda handler: body guard, validation and creation
    through the service, then the payment request sent to the queue. */
module CreateOrderHandler {
  import opened Wrappers
  import opened JsValues
  import opened OrderEntity
  import opened OrderStore
  import opened OrderDomain
  import opened LambdaHttp

  /** What the create controller's schema yields from the request body. */
  datatype CreateArgs = CreateArgs(items: Items, total: int, userId: Option<int>)

  /** The message body sent to the payment queue. */
  datatype PaymentRequest = PaymentRequest(orderId: int, paymentMethod: Option<string>, amount: int, items: Items)

  /** One message sent: the queue it went to, its body, and the string value
      of its `OrderId` message attribute. */
  datatype Dispatch = Dispatch(queueUrl: string, request: PaymentRequest, orderIdAttribute: string)

  const BODY_REQUIRED: Response := Response(400, Message("Request body is required"))
  const CREATED: string := "Order created successfully"
  const QUEUE_URL_UNSET: Exception := PlainError("QUEUE_URL is not set")
  /** What the queue client throws when a message cannot be sent. */
  const PUBLISH_FAILED: Exception := Exception("SQSServiceException", "Message could not be sent", [])

  /** The payment request built from a created order: its id, payment
      method, total as the amount, and items. */
  function PaymentRequestOf(o: Order): (m: PaymentRequest)
    ensures m.orderId == o.id && m.paymentMethod == o.paymentMethod
    ensures m.amount == o.total && m.items == o.items
  {
    PaymentRequest(o.id, o.paymentMethod, o.total, o.items)
  }

  /** The `OrderId` attribute as the TypeScript handler computes it,
      `paymentRequest.toString()` on a plain object: the same text for every
      message, which does not read as a number. */
  function OrderIdAttributeAsWritten(m: PaymentRequest): (s: string)
    ensures ToNumber(s) == NaN
  {
    "[object Object]"
  }

  /** Two payment requests for different orders get the same attribute, so
      the attribute cannot be used to tell their messages apart. */
  lemma AsWrittenAttributeLosesOrderId()
    ensures
      var a := PaymentRequest(1, None, 50, []);
      var b := PaymentRequest(2, None, 50, []);
      a.orderId != b.orderId && OrderIdAttributeAsWritten(a) == OrderIdAttributeAsWritten(b)
  {
  }

  /** The attribute as evidently intended: the order id as text. */
  function OrderIdAttribute(m: PaymentRequest): (s: string)
    ensures ToNumber(s) == Num(m.orderId)
  {
    NumberOfIntText(m.orderId);
    IntText(m.orderId)
  }

  /** The intended attribute tells messages of different orders apart. */
  lemma OrderIdAttributeDistinguishes(a: PaymentRequest, b: PaymentRequest)
    ensures OrderIdAttribute(a) == OrderIdAttribute(b) <==> a.orderId == b.orderId
  {
    NumberOfIntText(a.orderId);
    NumberOfIntText(b.orderId);
  }

  /** The message the handler sends for a created order, with the attribute
      as written. */
  function DispatchOf(queueUrl: string, o: Order): (d: Dispatch)
    ensures d.queueUrl == queueUrl
    ensures d.request.orderId == o.id && d.request.paymentMethod == o.paymentMethod
    ensures d.request.amount == o.total && d.request.items == o.items
    ensures d.orderIdAttribute == "[object Object]"
  {
    var m := PaymentRequestOf(o);
    Dispatch(queueUrl, m, OrderIdAttributeAsWritten(m))
  }

  /** The message as evidently intended: the same body, and the order id as
      the attribute. */
  function IntendedDispatchOf(queueUrl: string, o: Order): (d: Dispatch)
    ensures d.queueUrl == queueUrl && d.request == DispatchOf(queueUrl, o).request
    ensures ToNumber(d.orderIdAttribute) == Num(o.id)
  {
    var m := PaymentRequestOf(o);
    Dispatch(queueUrl, m, OrderIdAttribute(m))
  }

  /** The messages sent for two orders carry the same attribute, while the
      intended attributes differ exactly when the orders' ids do. */
  lemma DispatchAttributes(queueUrl: string, a: Order, b: Order)
    ensures DispatchOf(queueUrl, a).orderIdAttribute == DispatchOf(queueUrl, b).orderIdAttribute
    ensures IntendedDispatchOf(queueUrl, a).orderIdAttribute == IntendedDispatchOf(queueUrl, b).orderIdAttribute
            <==> a.id == b.id
  {
    OrderIdAttributeDistinguishes(PaymentRequestOf(a), PaymentRequestOf(b));
  }

  /** The guard of the handler: no body, or a body that parses to an object
      with no keys, which is exactly `{}`. */
  predicate BodyRejected(b: EventBody): (r: bool)
    ensures r <==> BodyFalsy(b) || b == NonEmptyText(Object(Payload(Missing, Missing, Missing, 0)))
  {
    BodyFalsy(b) || (b.NonEmptyText? && b.parsed.Object? && KeyCount(b.parsed.payload) == 0)
  }

  /** The observable effect of one invocation. */
  datatype CreateOutcome = CreateOutcome(response: Response, table: Table, calls: seq<RepoCall>, sent: seq<Dispatch>)

  /** One invocation of the handler, against a store `t` and a queue that has
      already received `sent`. `check` is the controller's validation, `now`
      the clock value the service uses as id, `queueUrl` the environment's
      `QUEUE_URL`, and `delivered` whether the queue accepts the message. */
  function CreateStep(t: Table, sent: seq<Dispatch>, body: EventBody, check: Payload -> Result<CreateArgs, Exception>,
                      now: int, queueUrl: Option<string>, delivered: bool): (r: CreateOutcome)
    requires WellFormed(t)
    ensures WellFormed(r.table)
    // the guard touches neither the store nor the queue
    ensures BodyRejected(body) ==> r == CreateOutcome(BODY_REQUIRED, t, [], sent)
    ensures r.response.statusCode in {201, 400, 500}
    // the store is asked to create at most once, and it is the only write
    ensures r.calls == [] || (|r.calls| == 1 && r.calls[0].CreateCall?)
    // the store either stays as it was or gains exactly the created order
    ensures r.table == t || (|r.calls| == 1 && r.calls[0].order.id !in t.rows && r.table == Insert(t, r.calls[0].order))
    // validation failures reach the error mapping and write nothing
    ensures !BodyRejected(body) && body.parsed.Object? && check(body.parsed.payload).Failure? ==>
      r == CreateOutcome(ErrorResponse(check(body.parsed.payload).error), t, [], sent)
    // exactly one message is published, and only on success
    ensures r.response.statusCode == 201 <==> r.sent != sent
    ensures r.response.statusCode != 201 ==> r.sent == sent
    ensures r.response.statusCode == 201 ==>
      && r.response.body.Data? && r.response.body.message == CREATED
      && var o := r.response.body.data;
      && o.id == now && o.status == RECEIVED
      && o.id !in t.rows && r.table == Insert(t, o)
      && TruthyText(queueUrl)
      && r.sent == sent + [DispatchOf(queueUrl.value, o)]
    // the dual write: an order can be stored while the request reports a failure
    ensures r.table != t && r.response.statusCode != 201 ==> r.response == INTERNAL_ERROR && r.sent == sent
    // a body that is not JSON is a server error, and nothing is written or sent
    ensures body.NonEmptyText? && body.parsed.Unparseable? ==> r == CreateOutcome(INTERNAL_ERROR, t, [], sent)
    // a validated body: the whole outcome, by whether the id is free, the
    // queue is configured and the message is accepted
    ensures !BodyRejected(body) && body.parsed.Object? && check(body.parsed.payload).Success? ==>
      var a := check(body.parsed.payload).value;
      var o := NewOrder(now, a.items, a.total, a.userId);
      && (now in t.rows ==> r == CreateOutcome(INTERNAL_ERROR, t, [CreateCall(o)], sent))
      && (now !in t.rows && TruthyText(queueUrl) && delivered ==>
            r == CreateOutcome(Response(201, Data(CREATED, o)), Insert(t, o), [CreateCall(o)],
                               sent + [DispatchOf(queueUrl.value, o)]))
      && (now !in t.rows && !(TruthyText(queueUrl) && delivered) ==>
            r == CreateOutcome(INTERNAL_ERROR, Insert(t, o), [CreateCall(o)], sent))
  {
    if BodyFalsy(body) then CreateOutcome(BODY_REQUIRED, t, [], sent)
    else match body.parsed
      case Unparseable => CreateOutcome(ErrorResponse(SYNTAX_ERROR), t, [], sent)
      case Object(p) =>
        if KeyCount(p) == 0 then CreateOutcome(BODY_REQUIRED, t, [], sent)
        else match check(p)
          case Failure(e) => CreateOutcome(ErrorResponse(e), t, [], sent)
          case Success(args) =>
            var e := CreateOrderSpec(t, now, args.items, args.total, args.userId);
            match e.result
            case Failure(err) => CreateOutcome(ErrorResponse(err), e.table, e.calls, sent)
            case Success(o) =>
              if !TruthyText(queueUrl) then CreateOutcome(ErrorResponse(QUEUE_URL_UNSET), e.table, e.calls, sent)
              else if !delivered then CreateOutcome(ErrorResponse(PUBLISH_FAILED), e.table, e.calls, sent)
              else CreateOutcome(Response(201, Data(CREATED, o)), e.table, e.calls,
                                 sent + [DispatchOf(queueUrl.value, o)])
  }

  /** A body that passes the guard and validation, with a fresh id, stores
      the order even when `QUEUE_URL` is unset or the queue refuses the
      message; the request then reports 500 and nothing is published. */
  lemma DualWriteGap(t: Table, sent: seq<Dispatch>, p: Payload, check: Payload -> Result<CreateArgs, Exception>,
                     now: int, queueUrl: Option<string>, delivered: bool)
    requires WellFormed(t) && KeyCount(p) > 0 && check(p).Success? && now !in t.rows
    requires !TruthyText(queueUrl) || !delivered
    ensures
      var a := check(p).value;
      var r := CreateStep(t, sent, NonEmptyText(Object(p)), check, now, queueUrl, delivered);
      && r.response == INTERNAL_ERROR
      && r.table == Insert(t, NewOrder(now, a.items, a.total, a.userId))
      && r.sent == sent
  {
  }

  /** The successful path of the handler's tests: a stored order with status
      `received` and the given total, and one payment request for it. */
  lemma CreateScenario(t: Table, sent: seq<Dispatch>, p: Payload, check: Payload -> Result<CreateArgs, Exception>,
                       now: int, url: string)
    requires WellFormed(t) && now !in t.rows && url != ""
    requires p == Payload(Given([LineItem(1, 2)]), Given(50), Given(1), 0)
    requires check(p) == Success(CreateArgs([LineItem(1, 2)], 50, Some(1)))
    ensures
      var r := CreateStep(t, sent, NonEmptyText(Object(p)), check, now, Some(url), true);
      && r.response.statusCode == 201
      && r.response.body.data == Order(now, [LineItem(1, 2)], 50, RECEIVED, Some(1), None)
      && r.calls == [CreateCall(r.response.body.data)]
      && |r.sent| == |sent| + 1
      && r.sent[|sent|].queueUrl == url
      && r.sent[|sent|].request == PaymentRequest(now, None, 50, [LineItem(1, 2)])
  {
  }

  /** When the store refuses the create (the id is taken), whatever the body,
      nothing is stored, nothing is published and the request fails. */
  lemma NoPublishWithoutOrder(t: Table, sent: seq<Dispatch>, body: EventBody, check: Payload -> Result<CreateArgs, Exception>,
                              now: int, queueUrl: Option<string>, delivered: bool)
    requires WellFormed(t) && now in t.rows
    ensures
      var r := CreateStep(t, sent, body, check, now, queueUrl, delivered);
      r.table == t && r.sent == sent && r.response.statusCode != 201
  {
  }

  /** The queue client: every message it accepted, in order. */
  class PaymentQueue {
    var sent: seq<Dispatch>

    constructor ()
      ensures sent == []
    {
      sent := [];
    }

    /** `sqs.send(...)`; `delivered` is whether the service accepts it. */
    method Send(d: Dispatch, delivered: bool) returns (r: Outcome<Exception>)
      modifies this
      ensures delivered ==> r == Pass && sent == old(sent) + [d]
      ensures !delivered ==> r == Fail(PUBLISH_FAILED) && sent == old(sent)
    {
      if delivered {
        sent := sent + [d];
        r := Pass;
      } else {
        r := Fail(PUBLISH_FAILED);
      }
    }
  }

  /** The handler. It builds a fresh service over the repository, as the
      TypeScript handler does on every invocation. */
  method Handle(repo: OrderRepository, queue: PaymentQueue, body: EventBody, check: Payload -> Result<CreateArgs, Exception>,
                now: int, queueUrl: Option<string>, delivered: bool) returns (response: Response)
    requires repo.Valid()
    modifies repo, queue
    ensures repo.Valid()
    ensures var r := CreateStep(old(repo.State()), old(queue.sent), body, check, now, queueUrl, delivered);
      && response == r.response
      && repo.State() == r.table
      && repo.calls == old(repo.calls) + r.calls
      && queue.sent == r.sent
  {
    if BodyFalsy(body) {
      return BODY_REQUIRED;
    }
    match body.parsed
    case Unparseable =>
      return ErrorResponse(SYNTAX_ERROR);
    case Object(p) =>
      if KeyCount(p) == 0 {
        return BODY_REQUIRED;
      }
      var service := new OrderService(repo);
      var checked := check(p);
      if checked.Failure? {
        return ErrorResponse(checked.error);
      }
      var created := service.CreateOrder(now, checked.value.items, checked.value.total, checked.value.userId);
      if created.Failure? {
        return ErrorResponse(created.error);
      }
      var order := created.value;
      if !TruthyText(queueUrl) {
        return ErrorResponse(QUEUE_URL_UNSET);
      }
      var published := queue.Send(DispatchOf(queueUrl.value, order), delivered);
      if published.Fail? {
        return ErrorResponse(published.error);
      }
      response := Response(201, Data(CREATED, order));
  }
}
