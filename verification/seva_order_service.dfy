/** `SevaOrderService.create`: a new order in status INITIATED, priced and
    titled from the catalog at that moment, holding personal details only
    when the devotee consented. */
module SevaOrderCreation {
  import opened Wrappers
  import opened SevaOrders

  /** A catalog entry of table `sevas`. */
  datatype Seva = Seva(id: string, title: string, description: Option<string>,
                       amountInPaise: int32, active: bool)

  /** `CreateSevaOrderRequest`; every field but `sevaId` may be null. */
  datatype CreateSevaOrderRequest = CreateSevaOrderRequest(
    sevaId: string,
    consentToStore: Option<bool>,
    fullName: Option<string>,
    mobile: Option<string>,
    email: Option<string>,
    addressLine1: Option<string>,
    addressLine2: Option<string>,
    city: Option<string>,
    state: Option<string>,
    pincode: Option<string>)

  /** `SevaOrderResponse`. */
  datatype SevaOrderResponse = SevaOrderResponse(id: string, sevaTitle: string,
                                                 amountInPaise: int32, status: string)

  const Initiated: string := "INITIATED"

  /** `Boolean.TRUE.equals(req.consentToStore())`: a null flag is no consent. */
  predicate Consents(req: CreateSevaOrderRequest) {
    req.consentToStore == Some(true)
  }

  /** The order as built, before it is saved: builder fields, then the
      personal-field setters when the request consents. */
  function BuiltOrder(uid: string, seva: Seva, req: CreateSevaOrderRequest): OrderRow
  {
    var built := OrderRow(None, uid, seva.id, seva.title, seva.amountInPaise, Initiated, Consents(req),
                          None, req.mobile, None, None, None, None, None, None,
                          None, None, None, None, None);
    if Consents(req) then
      built.(fullName := req.fullName, email := req.email, addressLine1 := req.addressLine1,
             addressLine2 := req.addressLine2, city := req.city, state := req.state,
             pincode := req.pincode)
    else built
  }

  /** The row `create` saves for a catalog entry under the generated id. */
  function NewOrderRow(uid: string, seva: Seva, req: CreateSevaOrderRequest,
                       id: string, now: Instant): OrderRow
  {
    Stamped(BuiltOrder(uid, seva, req).(id := Some(id)), now)
  }

  /** `create` on the order table: look the seva up (an unknown id throws
      and nothing is saved), then insert the new row and echo it. */
  function CreateStep(sevas: map<string, Seva>, rows: map<string, OrderRow>, uid: string,
                      req: CreateSevaOrderRequest, freshId: string, now: Instant): (t: Transition<SevaOrderResponse>)
    ensures t.result.Failure? <==> req.sevaId !in sevas
    ensures t.result.Failure? ==> t.result.error == NoSuchElement && t.rows == rows
    ensures t.result.Success? ==> t.rows.Keys == rows.Keys + {freshId}
    ensures t.result.Success? ==> forall id | id in rows && id != freshId :: t.rows[id] == rows[id]
  {
    if req.sevaId !in sevas then Transition(Failure(NoSuchElement), rows)
    else
      var seva := sevas[req.sevaId];
      var row := NewOrderRow(uid, seva, req, freshId, now);
      Transition(Success(SevaOrderResponse(freshId, row.sevaTitle, row.amountInPaise, row.status)),
                 rows[freshId := row])
  }

  /** A known seva: the new row under the fresh id, and its echo. */
  lemma CreateStepKnown(sevas: map<string, Seva>, rows: map<string, OrderRow>, uid: string,
                        req: CreateSevaOrderRequest, freshId: string, now: Instant)
    requires req.sevaId in sevas
    ensures var seva := sevas[req.sevaId];
            CreateStep(sevas, rows, uid, req, freshId, now)
            == Transition(Success(SevaOrderResponse(freshId, seva.title, seva.amountInPaise, Initiated)),
                          rows[freshId := NewOrderRow(uid, seva, req, freshId, now)])
  {
  }

  /** The saved order: INITIATED, owned by the caller, for the looked-up
      seva with its title and price copied, consent true only for TRUE,
      mobile kept whatever the consent, the seven other personal fields
      present only with consent, no gateway fields, both timestamps the
      creation instant; the response echoes id, title, amount and status. */
  lemma CreatedOrder(sevas: map<string, Seva>, rows: map<string, OrderRow>, uid: string,
                     req: CreateSevaOrderRequest, freshId: string, now: Instant)
    requires req.sevaId in sevas
    ensures var t := CreateStep(sevas, rows, uid, req, freshId, now);
            var seva := sevas[req.sevaId];
            var o := t.rows[freshId];
            && o.id == Some(freshId) && o.status == "INITIATED" && o.uid == uid
            && o.sevaId == seva.id && o.sevaTitle == seva.title && o.amountInPaise == seva.amountInPaise
            && (o.consentToStore <==> req.consentToStore == Some(true))
            && o.mobile == req.mobile
            && (o.consentToStore ==>
                  (&& o.fullName == req.fullName && o.email == req.email
                   && o.addressLine1 == req.addressLine1 && o.addressLine2 == req.addressLine2
                   && o.city == req.city && o.state == req.state && o.pincode == req.pincode))
            && (!o.consentToStore ==>
                  (&& o.fullName.None? && o.email.None? && o.addressLine1.None?
                   && o.addressLine2.None? && o.city.None? && o.state.None? && o.pincode.None?))
            && o.razorpayOrderId.None? && o.razorpayPaymentId.None? && o.razorpaySignature.None?
            && o.createdAt == o.updatedAt == Some(now)
            && t.result == Success(SevaOrderResponse(freshId, seva.title, seva.amountInPaise, "INITIATED"))
  {
  }

  /** Creating keeps the order table well formed when the generated id is a
      textual UUID. */
  lemma CreateKeepsStored(sevas: map<string, Seva>, rows: map<string, OrderRow>, uid: string,
                          req: CreateSevaOrderRequest, freshId: string, now: Instant)
    requires StoredRows(rows) && IsTextualUuid(freshId)
    ensures StoredRows(CreateStep(sevas, rows, uid, req, freshId, now).rows)
  {
  }

  /** No `active` check: switching a seva off changes nothing about the
      order created for it. */
  lemma CreateIgnoresActive(sevas: map<string, Seva>, rows: map<string, OrderRow>, uid: string,
                            req: CreateSevaOrderRequest, freshId: string, now: Instant, active: bool)
    requires req.sevaId in sevas
    ensures var changed := sevas[req.sevaId := sevas[req.sevaId].(active := active)];
            CreateStep(changed, rows, uid, req, freshId, now) == CreateStep(sevas, rows, uid, req, freshId, now)
            && CreateStep(changed, rows, uid, req, freshId, now).result.Success?
  {
  }

  class SevaOrderService {
    const orderRepo: SevaOrderRepository

    constructor(orderRepo: SevaOrderRepository)
      ensures this.orderRepo == orderRepo
    {
      this.orderRepo := orderRepo;
    }

    /** The entity `create` builds before saving: the builder with the
        seven fields it always sets, then the seven personal-field setters
        only under consent. */
    static method NewOrder(uid: string, seva: Seva, req: CreateSevaOrderRequest) returns (o: SevaOrder)
      ensures fresh(o) && o.Row() == BuiltOrder(uid, seva, req)
    {
      var consent := req.consentToStore == Some(true);
      o := new SevaOrder.Build(uid, seva.id, seva.title, seva.amountInPaise, "INITIATED",
                               consent, req.mobile);
      if req.consentToStore == Some(true) {
        o.SetFullName(req.fullName);
        o.SetEmail(req.email);
        o.SetAddressLine1(req.addressLine1);
        o.SetAddressLine2(req.addressLine2);
        o.SetCity(req.city);
        o.SetState(req.state);
        o.SetPincode(req.pincode);
      }
    }

    /** `create(uid, req)`: find the seva, build the order, save it, answer
        with the saved entity's id, title, amount and status. */
    method Create(uid: string, req: CreateSevaOrderRequest, sevas: map<string, Seva>,
                  freshId: string, now: Instant)
      returns (r: Result<SevaOrderResponse, Exception>)
      requires orderRepo.Valid()
      requires freshId !in orderRepo.rows && IsTextualUuid(freshId)
      modifies orderRepo
      ensures orderRepo.Valid()
      ensures Transition(r, orderRepo.rows) == CreateStep(sevas, old(orderRepo.rows), uid, req, freshId, now)
    {
      if req.sevaId !in sevas {
        return Failure(NoSuchElement);
      }
      var seva := sevas[req.sevaId];
      var o := NewOrder(uid, seva, req);
      orderRepo.Save(o, freshId, now);
      var saved := o.Row();
      CreateStepKnown(sevas, old(orderRepo.rows), uid, req, freshId, now);
      return Success(SevaOrderResponse(saved.id.value, saved.sevaTitle, saved.amountInPaise, saved.status));
    }
  }
}
