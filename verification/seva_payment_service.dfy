/** `SevaPaymentService`: attaching a gateway order to an INITIATED seva
    order, and marking the order PAID once the checkout callback's
    signature checks out. */
module SevaPayments {
  import opened Wrappers
  import opened JavaText
  import opened Hmac
  import opened Razorpay
  import opened SevaOrders
  import opened SevaOrderCreation

  /** `RazorpayOrderResponse`: what the checkout widget needs. */
  datatype RazorpayOrderResponse = RazorpayOrderResponse(keyId: string, orderId: string,
                                                         amount: int32, currency: string)

  /** `RazorpayVerifySevaRequest`: the checkout callback, as the controller
      hands it over (its fields are validated non-blank there). */
  datatype RazorpayVerifySevaRequest = RazorpayVerifySevaRequest(sevaOrderId: string,
                                                                 razorpayPaymentId: string,
                                                                 razorpaySignature: string)

  /** `RazorpayVerifyResponse`. */
  datatype RazorpayVerifyResponse = RazorpayVerifyResponse(verified: bool)

  const Paid: string := "PAID"

  // ---------------------------------------------------------------------
  // The receipt
  // ---------------------------------------------------------------------

  /** The gateway receipt: `"s_"` and the first 32 characters of the id
      with its hyphens removed; `substring(0, 32)` throws when fewer
      remain. */
  function Receipt(id: string): (r: Result<string, Exception>)
    ensures r.Failure? <==> |RemoveAll(id, '-')| < 32
    ensures r.Failure? ==> r.error == StringIndexOutOfBounds
    ensures r.Success? ==> |r.value| == 34 && r.value[..2] == "s_" && '-' !in r.value[2..]
  {
    var shortId := RemoveAll(id, '-');
    if |shortId| < 32 then Failure(StringIndexOutOfBounds)
    else
      assert forall c | c in shortId[..32] :: c in shortId;
      Success("s_" + shortId[..32])
  }

  /** The 32 hexadecimal digits of a UUID put back into the 8-4-4-4-12
      textual layout. */
  function Hyphenate(h: string): (r: string)
    requires |h| == 32
    ensures |r| == 36
  {
    h[..8] + "-" + h[8..12] + "-" + h[12..16] + "-" + h[16..20] + "-" + h[20..]
  }

  /** Removing the hyphens of two strings joined by a hyphen. */
  lemma RemoveAcrossHyphen(left: string, right: string)
    ensures RemoveAll(left + "-" + right, '-') == RemoveAll(left, '-') + RemoveAll(right, '-')
  {
    RemoveAllAppend(left + "-", right, '-');
    RemoveAllAppend(left, "-", '-');
  }

  /** The digit positions of a textual UUID hold no hyphen. */
  lemma UuidGroupHasNoHyphen(s: string, lo: int, hi: int)
    requires IsTextualUuid(s)
    requires 0 <= lo <= hi <= 36
    requires forall i | lo <= i < hi :: !UuidHyphenAt(i)
    ensures '-' !in s[lo..hi]
  {
    forall k | 0 <= k < hi - lo
      ensures s[lo..hi][k] != '-'
    {
      assert IsHexDigit(s[lo + k]);
    }
  }

  /** Five hyphen-free groups joined by hyphens lose exactly the hyphens. */
  lemma RemoveJoinedGroups(a: string, b: string, c: string, d: string, e: string)
    requires '-' !in a && '-' !in b && '-' !in c && '-' !in d && '-' !in e
    ensures RemoveAll(a + "-" + b + "-" + c + "-" + d + "-" + e, '-') == a + b + c + d + e
  {
    var ab := a + "-" + b;
    var abc := ab + "-" + c;
    var abcd := abc + "-" + d;
    RemoveAcrossHyphen(a, b);
    RemoveAcrossHyphen(ab, c);
    RemoveAcrossHyphen(abc, d);
    RemoveAcrossHyphen(abcd, e);
  }

  /** The hyphens of a textual UUID sit at 8, 13, 18 and 23: removing them
      leaves the five digit groups, 32 digits in all. */
  lemma UuidCompact(s: string)
    requires IsTextualUuid(s)
    ensures RemoveAll(s, '-') == s[..8] + s[9..13] + s[14..18] + s[19..23] + s[24..]
  {
    var a, b, c, d, e := s[..8], s[9..13], s[14..18], s[19..23], s[24..];
    assert UuidHyphenAt(8) && UuidHyphenAt(13) && UuidHyphenAt(18) && UuidHyphenAt(23);
    UuidGroupHasNoHyphen(s, 0, 8);
    assert s[0..8] == a;
    UuidGroupHasNoHyphen(s, 9, 13);
    UuidGroupHasNoHyphen(s, 14, 18);
    UuidGroupHasNoHyphen(s, 19, 23);
    UuidGroupHasNoHyphen(s, 24, 36);
    assert s[24..36] == e;
    assert s == a + "-" + b + "-" + c + "-" + d + "-" + e;
    RemoveJoinedGroups(a, b, c, d, e);
  }

  /** Every stored order id gets a receipt: 34 characters, and the 32
      digits after `"s_"` are the id's own digits, from which the id can
      be rebuilt. */
  lemma ReceiptOfUuid(id: string)
    requires IsTextualUuid(id)
    ensures Receipt(id).Success?
    ensures |RemoveAll(id, '-')| == 32 && Receipt(id).value == "s_" + RemoveAll(id, '-')
    ensures Hyphenate(Receipt(id).value[2..]) == id
  {
    UuidCompact(id);
    var h := RemoveAll(id, '-');
    assert h[..32] == h;
    assert ("s_" + h)[2..] == h;
    assert h[..8] == id[..8] && h[8..12] == id[9..13] && h[12..16] == id[14..18];
    assert h[16..20] == id[19..23] && h[20..] == id[24..];
    assert id == id[..8] + "-" + id[9..13] + "-" + id[14..18] + "-" + id[19..23] + "-" + id[24..];
  }

  /** Two orders never share a receipt. */
  lemma ReceiptInjectiveOnUuids(a: string, b: string)
    requires IsTextualUuid(a) && IsTextualUuid(b)
    requires Receipt(a) == Receipt(b)
    ensures a == b
  {
    ReceiptOfUuid(a);
    ReceiptOfUuid(b);
  }

  // ---------------------------------------------------------------------
  // createRazorpayOrderForSeva
  // ---------------------------------------------------------------------

  /** `createRazorpayOrderForSeva` on the order table: load the order
      (absent: throws), check the owner and that it is INITIATED, build the
      receipt, ask the gateway for an order of the stored amount, record the
      gateway id on the order and save it. */
  function GatewayOrderStep(rows: map<string, OrderRow>, uid: string, sevaOrderId: string,
                            keyId: string, api: OrdersApi, now: Instant)
    : (t: Transition<RazorpayOrderResponse>)
    ensures t.result.Failure? ==> t.rows == rows
    ensures t.result.Success? ==> sevaOrderId in rows && t.rows.Keys == rows.Keys
    ensures t.result.Success? ==> forall id | id in rows && id != sevaOrderId :: t.rows[id] == rows[id]
  {
    if sevaOrderId !in rows then Transition(Failure(NoSuchElement), rows)
    else
      var row := rows[sevaOrderId];
      if row.uid != uid then Transition(Failure(Runtime("Forbidden")), rows)
      else if row.status != "INITIATED" then
        Transition(Failure(Runtime("Order not payable: " + row.status)), rows)
      else match Receipt(sevaOrderId)
        case Failure(e) => Transition(Failure(e), rows)
        case Success(receipt) =>
          match api(OrderOptions(row.amountInPaise, receipt))
          case None => Transition(Failure(GatewayFailure), rows)
          case Some(gatewayId) =>
            Transition(Success(RazorpayOrderResponse(keyId, gatewayId, row.amountInPaise, Currency)),
                       rows[sevaOrderId := Flushed(row.(razorpayOrderId := Some(gatewayId)), row, now)])
  }

  /** The gateway request of an order: its stored amount, its receipt. */
  function GatewayRequest(rows: map<string, OrderRow>, sevaOrderId: string): map<string, Json>
    requires sevaOrderId in rows && StoredRows(rows)
  {
    ReceiptOfUuid(sevaOrderId);
    OrderOptions(rows[sevaOrderId].amountInPaise, Receipt(sevaOrderId).value)
  }

  /** On a well-formed table a gateway order is attached exactly when the
      order exists, belongs to the caller, is INITIATED and the gateway
      answers; the refusals come in that order, each with its own
      exception. */
  lemma GatewayOrderOutcome(rows: map<string, OrderRow>, uid: string, sevaOrderId: string,
                            keyId: string, api: OrdersApi, now: Instant)
    requires StoredRows(rows)
    ensures var t := GatewayOrderStep(rows, uid, sevaOrderId, keyId, api, now);
            && (sevaOrderId !in rows ==> t.result == Failure(NoSuchElement))
            && (sevaOrderId in rows && rows[sevaOrderId].uid != uid ==>
                  t.result == Failure(Runtime("Forbidden")))
            && (sevaOrderId in rows && rows[sevaOrderId].uid == uid && rows[sevaOrderId].status != "INITIATED" ==>
                  t.result == Failure(Runtime("Order not payable: " + rows[sevaOrderId].status)))
            && (t.result.Success? <==>
                  (&& sevaOrderId in rows && rows[sevaOrderId].uid == uid
                   && rows[sevaOrderId].status == "INITIATED"
                   && api(GatewayRequest(rows, sevaOrderId)).Some?))
            && ((&& sevaOrderId in rows && rows[sevaOrderId].uid == uid
                 && rows[sevaOrderId].status == "INITIATED"
                 && api(GatewayRequest(rows, sevaOrderId)).None?) ==>
                  t.result == Failure(GatewayFailure))
  {
    if sevaOrderId in rows {
      ReceiptOfUuid(sevaOrderId);
    }
  }

  /** A successful call asks for the stored amount in rupees' paise, answers
      with that amount, INR, the public key id and the new gateway id, and
      changes nothing on the order but `razorpayOrderId` and (when that
      changed) `updatedAt`. The status stays INITIATED. */
  lemma GatewayOrderRecorded(rows: map<string, OrderRow>, uid: string, sevaOrderId: string,
                             keyId: string, api: OrdersApi, now: Instant)
    requires StoredRows(rows)
    requires GatewayOrderStep(rows, uid, sevaOrderId, keyId, api, now).result.Success?
    ensures var t := GatewayOrderStep(rows, uid, sevaOrderId, keyId, api, now);
            var before := rows[sevaOrderId];
            var after := t.rows[sevaOrderId];
            var gatewayId := api(GatewayRequest(rows, sevaOrderId));
            && gatewayId.Some?
            && GatewayRequest(rows, sevaOrderId)["amount"] == JNumber(before.amountInPaise as int)
            && GatewayRequest(rows, sevaOrderId)["currency"] == JString("INR")
            && t.result.value == RazorpayOrderResponse(keyId, gatewayId.value, before.amountInPaise, "INR")
            && after.razorpayOrderId == gatewayId
            && after.status == "INITIATED"
            && after.(razorpayOrderId := before.razorpayOrderId, updatedAt := before.updatedAt) == before
            && (after.updatedAt == before.updatedAt || after.updatedAt == Some(now))
  {
    ReceiptOfUuid(sevaOrderId);
  }

  /** No set-once guard: a second successful call on the same order
      replaces the gateway id recorded by the first. */
  lemma GatewayOrderIdOverwritten(rows: map<string, OrderRow>, uid: string, sevaOrderId: string,
                                  keyId: string, first: OrdersApi, second: OrdersApi,
                                  now: Instant, later: Instant)
    requires StoredRows(rows)
    requires GatewayOrderStep(rows, uid, sevaOrderId, keyId, first, now).result.Success?
    requires second(GatewayRequest(rows, sevaOrderId)).Some?
    ensures var t1 := GatewayOrderStep(rows, uid, sevaOrderId, keyId, first, now);
            var t2 := GatewayOrderStep(t1.rows, uid, sevaOrderId, keyId, second, later);
            && t2.result.Success?
            && t2.rows[sevaOrderId].razorpayOrderId == second(GatewayRequest(rows, sevaOrderId))
  {
    var t1 := GatewayOrderStep(rows, uid, sevaOrderId, keyId, first, now);
    GatewayOrderRecorded(rows, uid, sevaOrderId, keyId, first, now);
    assert t1.rows[sevaOrderId].amountInPaise == rows[sevaOrderId].amountInPaise;
    assert StoredRows(t1.rows) by {
      GatewayOrderKeepsStored(rows, uid, sevaOrderId, keyId, first, now);
    }
    assert GatewayRequest(t1.rows, sevaOrderId) == GatewayRequest(rows, sevaOrderId);
    GatewayOrderOutcome(t1.rows, uid, sevaOrderId, keyId, second, later);
  }

  /** The order table stays well formed. */
  lemma GatewayOrderKeepsStored(rows: map<string, OrderRow>, uid: string, sevaOrderId: string,
                                keyId: string, api: OrdersApi, now: Instant)
    requires StoredRows(rows)
    ensures StoredRows(GatewayOrderStep(rows, uid, sevaOrderId, keyId, api, now).rows)
  {
  }

  // ---------------------------------------------------------------------
  // verifySevaPayment
  // ---------------------------------------------------------------------

  /** `verifySevaPayment` on the order table: load the order (absent:
      throws), check the owner and that a gateway order was recorded, check
      the signature against that gateway id; only a valid signature sets
      PAID, the payment id and the signature, and saves. There is no check
      of the order's status. */
  function VerifyStep(rows: map<string, OrderRow>, uid: string, req: RazorpayVerifySevaRequest,
                      mac: Mac, keySecret: string, now: Instant)
    : (t: Transition<RazorpayVerifyResponse>)
    ensures t.result.Failure? ==> t.rows == rows
    ensures t.result.Success? ==> req.sevaOrderId in rows && t.rows.Keys == rows.Keys
    ensures t.result.Success? ==> forall id | id in rows && id != req.sevaOrderId :: t.rows[id] == rows[id]
    ensures t.result == Success(RazorpayVerifyResponse(false)) ==> t.rows == rows
  {
    if req.sevaOrderId !in rows then Transition(Failure(NoSuchElement), rows)
    else
      var row := rows[req.sevaOrderId];
      if row.uid != uid then Transition(Failure(Runtime("Forbidden")), rows)
      else if row.razorpayOrderId.None? || IsBlank(row.razorpayOrderId.value) then
        Transition(Failure(Runtime("Razorpay order not created")), rows)
      else match SignatureCheck(mac, keySecret, row.razorpayOrderId.value,
                                req.razorpayPaymentId, req.razorpaySignature)
        case Failure(e) => Transition(Failure(e), rows)
        case Success(ok) =>
          if ok then
            var paid := row.(status := Paid, razorpayPaymentId := Some(req.razorpayPaymentId),
                             razorpaySignature := Some(req.razorpaySignature));
            Transition(Success(RazorpayVerifyResponse(true)), rows[req.sevaOrderId := Flushed(paid, row, now)])
          else Transition(Success(RazorpayVerifyResponse(false)), rows)
  }

  /** The signature the gateway computes for an order's recorded gateway
      id and a payment id. */
  function ExpectedSignature(mac: Mac, keySecret: string, gatewayOrderId: string, paymentId: string): string {
    HexEncode(mac(Utf8(keySecret), Utf8(gatewayOrderId) + [0x7C] + Utf8(paymentId)))
  }

  /** Past the checks, the value `VerifyStep` takes for a signature
      answer. */
  lemma VerifyStepChecked(rows: map<string, OrderRow>, uid: string, req: RazorpayVerifySevaRequest,
                          mac: Mac, keySecret: string, now: Instant)
    requires req.sevaOrderId in rows && rows[req.sevaOrderId].uid == uid
    requires rows[req.sevaOrderId].razorpayOrderId.Some? && !IsBlank(rows[req.sevaOrderId].razorpayOrderId.value)
    ensures var row := rows[req.sevaOrderId];
            var check := SignatureCheck(mac, keySecret, row.razorpayOrderId.value,
                                        req.razorpayPaymentId, req.razorpaySignature);
            var paid := row.(status := Paid, razorpayPaymentId := Some(req.razorpayPaymentId),
                             razorpaySignature := Some(req.razorpaySignature));
            VerifyStep(rows, uid, req, mac, keySecret, now)
            == if check.Failure? then Transition(Failure(check.error), rows)
               else if check.value then
                 Transition(Success(RazorpayVerifyResponse(true)), rows[req.sevaOrderId := Flushed(paid, row, now)])
               else Transition(Success(RazorpayVerifyResponse(false)), rows)
  {
  }

  /** The refusals of verify, in the order the code checks them; an empty
      key secret surfaces as the wrapped `IllegalArgumentException`. */
  lemma VerifyRefusals(rows: map<string, OrderRow>, uid: string, req: RazorpayVerifySevaRequest,
                       mac: Mac, keySecret: string, now: Instant)
    ensures var t := VerifyStep(rows, uid, req, mac, keySecret, now);
            var id := req.sevaOrderId;
            && (id !in rows ==> t.result == Failure(NoSuchElement))
            && (id in rows && rows[id].uid != uid ==> t.result == Failure(Runtime("Forbidden")))
            && (id in rows && rows[id].uid == uid
                && (rows[id].razorpayOrderId.None? || IsBlank(rows[id].razorpayOrderId.value)) ==>
                  t.result == Failure(Runtime("Razorpay order not created")))
            && (id in rows && rows[id].uid == uid && rows[id].razorpayOrderId.Some?
                && !IsBlank(rows[id].razorpayOrderId.value) && keySecret == "" ==>
                  t.result == Failure(Wrapped(IllegalArgument("Empty key"))))
  {
    var id := req.sevaOrderId;
    if id in rows && rows[id].uid == uid && rows[id].razorpayOrderId.Some?
       && !IsBlank(rows[id].razorpayOrderId.value) && keySecret == "" {
      assert Utf8(keySecret) == [];
    }
  }

  /** Past those checks, the answer is whether the submitted signature is
      exactly the expected one; a valid one marks the order PAID with the
      payment id and signature and touches nothing else but `updatedAt`,
      an invalid one changes nothing. */
  lemma VerifyOutcome(rows: map<string, OrderRow>, uid: string, req: RazorpayVerifySevaRequest,
                      mac: Mac, keySecret: string, now: Instant)
    requires req.sevaOrderId in rows && rows[req.sevaOrderId].uid == uid
    requires rows[req.sevaOrderId].razorpayOrderId.Some? && !IsBlank(rows[req.sevaOrderId].razorpayOrderId.value)
    requires keySecret != ""
    ensures var t := VerifyStep(rows, uid, req, mac, keySecret, now);
            var before := rows[req.sevaOrderId];
            var valid := req.razorpaySignature
                         == ExpectedSignature(mac, keySecret, before.razorpayOrderId.value, req.razorpayPaymentId);
            && t.result == Success(RazorpayVerifyResponse(valid))
            && (!valid ==> t.rows == rows)
            && (valid ==>
                  var after := t.rows[req.sevaOrderId];
                  && after.status == "PAID"
                  && after.razorpayPaymentId == Some(req.razorpayPaymentId)
                  && after.razorpaySignature == Some(req.razorpaySignature)
                  && after.(status := before.status, razorpayPaymentId := before.razorpayPaymentId,
                            razorpaySignature := before.razorpaySignature, updatedAt := before.updatedAt)
                     == before)
  {
  }

  /** Verify never changes who owns the order, what it is for, its price,
      its personal details or its recorded gateway id. */
  lemma VerifyKeepsOrderTerms(rows: map<string, OrderRow>, uid: string, req: RazorpayVerifySevaRequest,
                              mac: Mac, keySecret: string, now: Instant)
    requires req.sevaOrderId in rows
    ensures var after := VerifyStep(rows, uid, req, mac, keySecret, now).rows[req.sevaOrderId];
            var before := rows[req.sevaOrderId];
            && after.uid == before.uid && after.sevaId == before.sevaId
            && after.amountInPaise == before.amountInPaise
            && after.razorpayOrderId == before.razorpayOrderId
            && after.createdAt == before.createdAt
            && after.(status := before.status, razorpayPaymentId := before.razorpayPaymentId,
                      razorpaySignature := before.razorpaySignature, updatedAt := before.updatedAt)
               == before
  {
  }

  /** No status precondition: an order that is already PAID is verified
      again for another payment id, and the new payment id and signature
      replace the stored ones. */
  lemma PaidOrderReverified(rows: map<string, OrderRow>, uid: string, req: RazorpayVerifySevaRequest,
                            mac: Mac, keySecret: string, now: Instant)
    requires req.sevaOrderId in rows && rows[req.sevaOrderId].uid == uid
    requires rows[req.sevaOrderId].status == "PAID"
    requires rows[req.sevaOrderId].razorpayPaymentId.Some?
    requires rows[req.sevaOrderId].razorpayPaymentId.value != req.razorpayPaymentId
    requires rows[req.sevaOrderId].razorpayOrderId.Some? && !IsBlank(rows[req.sevaOrderId].razorpayOrderId.value)
    requires keySecret != ""
    requires req.razorpaySignature
             == ExpectedSignature(mac, keySecret, rows[req.sevaOrderId].razorpayOrderId.value, req.razorpayPaymentId)
    ensures var t := VerifyStep(rows, uid, req, mac, keySecret, now);
            && t.result == Success(RazorpayVerifyResponse(true))
            && t.rows[req.sevaOrderId].status == "PAID"
            && t.rows[req.sevaOrderId].razorpayPaymentId == Some(req.razorpayPaymentId)
            && t.rows[req.sevaOrderId].razorpayPaymentId != rows[req.sevaOrderId].razorpayPaymentId
            && t.rows[req.sevaOrderId].updatedAt == Some(now)
  {
    VerifyOutcome(rows, uid, req, mac, keySecret, now);
  }

  /** Repeating a successful verification with the same callback answers
      true again and writes nothing: the row already holds those values,
      so the dirty check finds nothing and `updatedAt` is not refreshed. */
  lemma VerifyRepeatIsNoOp(rows: map<string, OrderRow>, uid: string, req: RazorpayVerifySevaRequest,
                           mac: Mac, keySecret: string, now: Instant, later: Instant)
    requires VerifyStep(rows, uid, req, mac, keySecret, now).result == Success(RazorpayVerifyResponse(true))
    ensures var t1 := VerifyStep(rows, uid, req, mac, keySecret, now);
            var t2 := VerifyStep(t1.rows, uid, req, mac, keySecret, later);
            t2 == Transition(Success(RazorpayVerifyResponse(true)), t1.rows)
  {
    var t1 := VerifyStep(rows, uid, req, mac, keySecret, now);
    var row := rows[req.sevaOrderId];
    var after := t1.rows[req.sevaOrderId];
    assert after.razorpayOrderId == row.razorpayOrderId && after.uid == row.uid;
    assert after.(status := Paid, razorpayPaymentId := Some(req.razorpayPaymentId),
                  razorpaySignature := Some(req.razorpaySignature)) == after;
    assert t1.rows[req.sevaOrderId := after] == t1.rows;
  }

  /** The order table stays well formed. */
  lemma VerifyKeepsStored(rows: map<string, OrderRow>, uid: string, req: RazorpayVerifySevaRequest,
                          mac: Mac, keySecret: string, now: Instant)
    requires StoredRows(rows)
    ensures StoredRows(VerifyStep(rows, uid, req, mac, keySecret, now).rows)
  {
  }

  // ---------------------------------------------------------------------
  // The lifecycle
  // ---------------------------------------------------------------------

  /** The three calls in a row on a well-formed table: creating an order,
      attaching a gateway order, then the checkout callback carrying the
      gateway's signature. The gateway is asked for the catalog price with
      the order's receipt, and the order ends PAID with that price, the
      gateway id, the payment id and the signature. */
  lemma PaymentLifecycle(sevas: map<string, Seva>, rows: map<string, OrderRow>, uid: string,
                         req: CreateSevaOrderRequest, freshId: string, created: Instant,
                         keyId: string, api: OrdersApi, attached: Instant,
                         mac: Mac, keySecret: string, paymentId: string, verified: Instant)
    requires StoredRows(rows) && freshId !in rows && IsTextualUuid(freshId)
    requires req.sevaId in sevas && keySecret != ""
    requires api(OrderOptions(sevas[req.sevaId].amountInPaise, "s_" + RemoveAll(freshId, '-'))).Some?
    requires !IsBlank(api(OrderOptions(sevas[req.sevaId].amountInPaise, "s_" + RemoveAll(freshId, '-'))).value)
    ensures var gatewayId := api(OrderOptions(sevas[req.sevaId].amountInPaise, "s_" + RemoveAll(freshId, '-'))).value;
            var c := CreateStep(sevas, rows, uid, req, freshId, created);
            var g := GatewayOrderStep(c.rows, uid, freshId, keyId, api, attached);
            var callback := RazorpayVerifySevaRequest(freshId, paymentId,
                                                      ExpectedSignature(mac, keySecret, gatewayId, paymentId));
            var v := VerifyStep(g.rows, uid, callback, mac, keySecret, verified);
            && c.result.Success? && g.result.Success?
            && g.result.value == RazorpayOrderResponse(keyId, gatewayId, sevas[req.sevaId].amountInPaise, "INR")
            && v.result == Success(RazorpayVerifyResponse(true))
            && v.rows[freshId].status == "PAID"
            && v.rows[freshId].amountInPaise == sevas[req.sevaId].amountInPaise
            && v.rows[freshId].razorpayOrderId == Some(gatewayId)
            && v.rows[freshId].razorpayPaymentId == Some(paymentId)
            && v.rows[freshId].razorpaySignature == Some(callback.razorpaySignature)
            && v.rows.Keys == rows.Keys + {freshId}
  {
    var c := CreateStep(sevas, rows, uid, req, freshId, created);
    CreatedOrder(sevas, rows, uid, req, freshId, created);
    CreateKeepsStored(sevas, rows, uid, req, freshId, created);
    ReceiptOfUuid(freshId);
    assert GatewayRequest(c.rows, freshId)
           == OrderOptions(sevas[req.sevaId].amountInPaise, "s_" + RemoveAll(freshId, '-'));
    GatewayOrderOutcome(c.rows, uid, freshId, keyId, api, attached);
    GatewayOrderRecorded(c.rows, uid, freshId, keyId, api, attached);
    var g := GatewayOrderStep(c.rows, uid, freshId, keyId, api, attached);
    var gatewayId := api(OrderOptions(sevas[req.sevaId].amountInPaise, "s_" + RemoveAll(freshId, '-'))).value;
    var callback := RazorpayVerifySevaRequest(freshId, paymentId,
                                              ExpectedSignature(mac, keySecret, gatewayId, paymentId));
    VerifyOutcome(g.rows, uid, callback, mac, keySecret, verified);
  }

  // ---------------------------------------------------------------------
  // The service object
  // ---------------------------------------------------------------------

  class SevaPaymentService {
    const razorpay: RazorpayService
    const orders: SevaOrderRepository

    constructor(razorpay: RazorpayService, orders: SevaOrderRepository)
      ensures this.razorpay == razorpay && this.orders == orders
    {
      this.razorpay := razorpay;
      this.orders := orders;
    }

    /** `createRazorpayOrderForSeva(uid, req)`. */
    method CreateRazorpayOrderForSeva(uid: string, sevaOrderId: string, api: OrdersApi, now: Instant)
      returns (r: Result<RazorpayOrderResponse, Exception>)
      requires orders.Valid()
      modifies orders
      ensures orders.Valid()
      ensures Transition(r, orders.rows)
              == GatewayOrderStep(old(orders.rows), uid, sevaOrderId, razorpay.keyId, api, now)
    {
      var found := orders.FindById(sevaOrderId);
      if found.None? {
        return Failure(NoSuchElement);
      }
      var o := found.value;
      if o.uid != uid {
        return Failure(Runtime("Forbidden"));
      }
      if o.status != "INITIATED" {
        return Failure(Runtime("Order not payable: " + o.status));
      }
      assert o.Row().id == Some(sevaOrderId);
      var shortId := RemoveAll(o.id.value, '-');
      if |shortId| < 32 {
        return Failure(StringIndexOutOfBounds);
      }
      var receipt := "s_" + shortId[..32];
      var created := razorpay.CreateOrder(o.amountInPaise, receipt, api);
      if created.Failure? {
        return Failure(created.error);
      }
      o.SetRazorpayOrderId(Some(created.value.orderId));
      orders.Save(o, sevaOrderId, now);
      return Success(RazorpayOrderResponse(razorpay.GetKeyId(), created.value.orderId,
                                           created.value.amount, created.value.currency));
    }

    /** `verifySevaPayment(uid, req)`. */
    method VerifySevaPayment(uid: string, req: RazorpayVerifySevaRequest, mac: Mac, now: Instant)
      returns (r: Result<RazorpayVerifyResponse, Exception>)
      requires orders.Valid()
      modifies orders
      ensures orders.Valid()
      ensures Transition(r, orders.rows)
              == VerifyStep(old(orders.rows), uid, req, mac, razorpay.keySecret, now)
    {
      var found := orders.FindById(req.sevaOrderId);
      if found.None? {
        return Failure(NoSuchElement);
      }
      var o := found.value;
      if o.uid != uid {
        return Failure(Runtime("Forbidden"));
      }
      if o.razorpayOrderId.None? || IsBlank(o.razorpayOrderId.value) {
        return Failure(Runtime("Razorpay order not created"));
      }
      var ok := razorpay.VerifySignature(o.razorpayOrderId.value, req.razorpayPaymentId,
                                         req.razorpaySignature, mac);
      VerifyStepChecked(old(orders.rows), uid, req, mac, razorpay.keySecret, now);
      if ok.Failure? {
        return Failure(ok.error);
      }
      if ok.value {
        o.SetStatus("PAID");
        o.SetRazorpayPaymentId(Some(req.razorpayPaymentId));
        o.SetRazorpaySignature(Some(req.razorpaySignature));
        orders.Save(o, req.sevaOrderId, now);
      }
      return Success(RazorpayVerifyResponse(ok.value));
    }
  }
}
