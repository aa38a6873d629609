/** The update-order Lambda handler: id/body guard, the controller request
    built from the path and the body, and the update through the service. */
module UpdateOrderHandler {
  import opened Wrappers
  import opened JsValues
  import opened OrderEntity
  import opened OrderStore
  import opened OrderDomain
  import opened LambdaHttp

  /** The object handed to the update controller. */
  datatype UpdateRequest = UpdateRequest(id: JsNumber, items: Field<Items>, total: Field<int>, userId: Field<int>)

  /** What the update controller's schema yields from that object. */
  datatype UpdateArgs = UpdateArgs(id: int, items: Items, total: int, userId: Option<int>)

  const IDS_REQUIRED: Response := Response(400, Message("Order ID and items are required"))
  const UPDATED: string := "Order updated successfully"

  /** `{ id: Number(orderId), items, total, userId }`: the path's text read
      as a number, and the body's three fields passed on as they came. */
  function ControllerRequest(pathId: string, p: Payload): (r: UpdateRequest)
    ensures r.id == ToNumber(pathId)
    ensures r.id.Num? <==> (pathId != [] && AllDigits(pathId)) || (|pathId| > 1 && pathId[0] == '-' && AllDigits(pathId[1..]))
    ensures r.items == p.items && r.total == p.total && r.userId == p.userId
  {
    UpdateRequest(ToNumber(pathId), p.items, p.total, p.userId)
  }

  /** The controller sees the path's id as the number it spells, negative
      or zero-padded ones included, and exactly the three fields of the body;
      every other key of the body is dropped. */
  lemma ControllerRequestOfIdText(n: int, k: nat, p: Payload, q: Payload)
    requires p.items == q.items && p.total == q.total && p.userId == q.userId
    ensures ControllerRequest(IntText(n), p) == UpdateRequest(Num(n), p.items, p.total, p.userId)
    ensures ControllerRequest(IntText(n), p) == ControllerRequest(IntText(n), q)
    ensures n >= 0 ==> ControllerRequest(Zeros(k) + IntText(n), p) == UpdateRequest(Num(n), p.items, p.total, p.userId)
    ensures n < 0 ==> ControllerRequest("-" + Zeros(k) + IntText(-n), p) == UpdateRequest(Num(n), p.items, p.total, p.userId)
  {
    NumberOfIntText(n);
    if n >= 0 { NumberOfPaddedText(k, n); } else { NumberOfPaddedText(k, -n); }
  }

  /** The guard: no (or an empty) path id, or no (or an empty) body. */
  predicate MissingInput(pathId: Option<string>, body: EventBody): (r: bool)
    ensures r <==> pathId.None? || pathId.value == "" || body.Absent? || body.EmptyText?
  {
    !TruthyText(pathId) || BodyFalsy(body)
  }

  datatype UpdateOutcome = UpdateOutcome(response: Response, table: Table, calls: seq<RepoCall>)

  /** The controller's part once it has the request: validate, then update
      through the service; every error is mapped by the `catch` block. */
  function Controlled(t: Table, checked: Result<UpdateArgs, Exception>): (r: UpdateOutcome)
    requires WellFormed(t)
    ensures checked.Failure? ==> r == UpdateOutcome(ErrorResponse(checked.error), t, [])
    ensures checked.Success? && checked.value.id !in t.rows ==> r == UpdateOutcome(INTERNAL_ERROR, t, [])
    ensures checked.Success? && checked.value.id in t.rows ==>
      var a := checked.value;
      var o := Merge(t.rows[a.id], a.items, a.total, a.userId);
      r == UpdateOutcome(Response(200, Data(UPDATED, o)), Replace(t, o), [UpdateCall(o)])
  {
    match checked
    case Failure(e) => UpdateOutcome(ErrorResponse(e), t, [])
    case Success(a) =>
      var e := UpdateOrderSpec(t, a.id, a.items, a.total, a.userId);
      match e.result
      case Failure(err) => UpdateOutcome(ErrorResponse(err), e.table, e.calls)
      case Success(o) => UpdateOutcome(Response(200, Data(UPDATED, o)), e.table, e.calls)
  }

  /** One invocation of the handler against store `t`; `check` is the
      controller's validation of the request it is handed. */
  function UpdateStep(t: Table, pathId: Option<string>, body: EventBody,
                      check: UpdateRequest -> Result<UpdateArgs, Exception>): (r: UpdateOutcome)
    requires WellFormed(t)
    ensures WellFormed(r.table)
    ensures MissingInput(pathId, body) ==> r == UpdateOutcome(IDS_REQUIRED, t, [])
    ensures r.response.statusCode in {200, 400, 500}
    // a successful update stores exactly the returned order, under its id
    ensures r.response.statusCode == 200 ==>
      && r.response.body.Data? && r.response.body.message == UPDATED
      && var o := r.response.body.data;
      && o.id in t.rows && o.status == t.rows[o.id].status
      && r.table == Replace(t, o) && r.calls == [UpdateCall(o)]
    // every failure leaves the store as it was and writes nothing
    ensures r.response.statusCode != 200 ==> r.table == t && r.calls == []
    // past the guard, the controller decides, on exactly the request built from path and body
    ensures !MissingInput(pathId, body) && body.parsed.Object? ==>
      var checked := check(ControllerRequest(pathId.value, body.parsed.payload));
      && (checked.Failure? ==> r.response == ErrorResponse(checked.error))
      && (checked.Success? ==> (r.response.statusCode == 200 <==> checked.value.id in t.rows))
      && (checked.Success? && checked.value.id !in t.rows ==> r.response == INTERNAL_ERROR)
      && (checked.Success? && checked.value.id in t.rows ==>
            var a := checked.value;
            var e := UpdateOrderSpec(t, a.id, a.items, a.total, a.userId);
            r == UpdateOutcome(Response(200, Data(UPDATED, e.result.value)), e.table, e.calls))
    // a body that is not JSON is a server error, and nothing is written
    ensures !MissingInput(pathId, body) && body.parsed.Unparseable? ==> r == UpdateOutcome(INTERNAL_ERROR, t, [])
  {
    if MissingInput(pathId, body) then UpdateOutcome(IDS_REQUIRED, t, [])
    else match body.parsed
      case Unparseable => UpdateOutcome(ErrorResponse(SYNTAX_ERROR), t, [])
      case Object(p) => Controlled(t, check(ControllerRequest(pathId.value, p)))
  }

  /** Unlike the create handler, `{}` passes the guard: with a stored id the
      update goes through on whatever the controller makes of it. */
  lemma EmptyObjectReachesController(t: Table, n: nat, check: UpdateRequest -> Result<UpdateArgs, Exception>)
    requires WellFormed(t)
    requires check(UpdateRequest(Num(n), Missing, Missing, Missing)).Success?
    requires check(UpdateRequest(Num(n), Missing, Missing, Missing)).value.id in t.rows
    ensures UpdateStep(t, Some(DecimalText(n)), NonEmptyText(Object(Payload(Missing, Missing, Missing, 0))), check).response.statusCode == 200
  {
    NumberOfDecimalText(n);
  }

  /** Updating an id that is not stored is reported as a server error, not
      as a client error, and writes nothing. */
  lemma MissingOrderIsServerError(t: Table, pathId: string, p: Payload, check: UpdateRequest -> Result<UpdateArgs, Exception>)
    requires WellFormed(t) && pathId != ""
    requires check(ControllerRequest(pathId, p)).Success? && check(ControllerRequest(pathId, p)).value.id !in t.rows
    ensures UpdateStep(t, Some(pathId), NonEmptyText(Object(p)), check) == UpdateOutcome(INTERNAL_ERROR, t, [])
  {
  }

  /** The handler. It sends nothing to any queue: the only state it may
      change is the repository. */
  method Handle(repo: OrderRepository, pathId: Option<string>, body: EventBody,
                check: UpdateRequest -> Result<UpdateArgs, Exception>) returns (response: Response)
    requires repo.Valid()
    modifies repo
    ensures repo.Valid()
    ensures var r := UpdateStep(old(repo.State()), pathId, body, check);
      response == r.response && repo.State() == r.table && repo.calls == old(repo.calls) + r.calls
  {
    if MissingInput(pathId, body) {
      return IDS_REQUIRED;
    }
    match body.parsed
    case Unparseable =>
      return ErrorResponse(SYNTAX_ERROR);
    case Object(p) =>
      var service := new OrderService(repo);
      var checked := check(ControllerRequest(pathId.value, p));
      if checked.Failure? {
        return ErrorResponse(checked.error);
      }
      var a := checked.value;
      var updated := service.UpdateOrder(a.id, a.items, a.total, a.userId);
      if updated.Failure? {
        return ErrorResponse(updated.error);
      }
      response := Response(200, Data(UPDATED, updated.value));
  }
}
