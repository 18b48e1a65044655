/** `RazorpayService`: the payment gateway's key pair, gateway-order
    creation, and verification of the checkout callback signature. */
module Razorpay {
  import opened Wrappers
  import opened Hmac
  import opened JavaText

  /** A value put into the gateway request's `JSONObject`. */
  datatype Json = JNumber(n: int) | JString(s: string)

  /** `client.orders.create(options)`: the id of the new gateway order, or
      `None` when the client throws. It is a parameter of each call, so two
      calls may be answered differently. */
  type OrdersApi = map<string, Json> -> Option<string>

  /** The only currency the service asks for. */
  const Currency: string := "INR"

  /** `RazorpayService.OrderCreated`. */
  datatype OrderCreated = OrderCreated(orderId: string, amount: int32, currency: string)

  /** The four entries `createOrder` puts into the request. */
  function OrderOptions(amountInPaise: int32, receipt: string): (m: map<string, Json>)
    ensures m.Keys == {"amount", "currency", "receipt", "payment_capture"}
    ensures m["amount"] == JNumber(amountInPaise as int) && m["currency"] == JString("INR")
    ensures m["receipt"] == JString(receipt) && m["payment_capture"] == JNumber(1)
  {
    map["amount" := JNumber(amountInPaise as int), "currency" := JString(Currency),
        "receipt" := JString(receipt), "payment_capture" := JNumber(1)]
  }

  /** The signed callback payload: gateway order id, a bar, payment id. */
  function Payload(orderId: string, paymentId: string): (r: string)
    ensures |r| == |orderId| + 1 + |paymentId|
    ensures r[..|orderId|] == orderId && r[|orderId| + 1..] == paymentId
  {
    orderId + "|" + paymentId
  }

  /** What `verifySignature` answers or throws for a key secret. */
  function SignatureCheck(mac: Mac, keySecret: string, orderId: string, paymentId: string,
                          signature: string): (r: Result<bool, Exception>)
    ensures r.Success? <==> keySecret != ""
    ensures r.Success? ==>
      (r.value <==> signature == HexEncode(mac(Utf8(keySecret), Utf8(orderId) + [0x7C] + Utf8(paymentId))))
  {
    Utf8Append(orderId, "|");
    Utf8Append(orderId + "|", paymentId);
    assert Utf8("|") == Utf8Char('|') + Utf8("") == [0x7C];
    match HmacSha256Hex(mac, Payload(orderId, paymentId), keySecret)
    case Failure(e) => Failure(e)
    case Success(expected) => Success(expected == signature)
  }

  /** Without a bar in the order id the payload determines both ids, so a
      signature cannot be replayed for another (order, payment) pair. */
  lemma PayloadInjective(o1: string, p1: string, o2: string, p2: string)
    requires '|' !in o1 && '|' !in o2
    requires Payload(o1, p1) == Payload(o2, p2)
    ensures o1 == o2 && p1 == p2
  {
    var s := Payload(o1, p1);
    if |o1| < |o2| {
      PayloadAt(o1, p1, |o1|);
      PayloadAt(o2, p2, |o1|);
    } else if |o2| < |o1| {
      PayloadAt(o2, p2, |o2|);
      PayloadAt(o1, p1, |o2|);
    } else {
      assert o1 == s[..|o1|] == o2;
      assert p1 == s[|o1| + 1..] == p2;
    }
  }

  lemma PayloadAt(orderId: string, paymentId: string, k: int)
    requires 0 <= k <= |orderId|
    ensures k < |orderId| ==> Payload(orderId, paymentId)[k] == orderId[k]
    ensures k == |orderId| ==> Payload(orderId, paymentId)[k] == '|'
  {
  }

  /** The comparison is `String.equals`: the upper-case spelling of a valid
      signature is refused as soon as the tag has a digit a-f. */
  lemma SignatureCaseSensitive(mac: Mac, keySecret: string, orderId: string, paymentId: string, i: int)
    requires keySecret != ""
    requires var expected := HexEncode(mac(Utf8(keySecret), Utf8(Payload(orderId, paymentId))));
             0 <= i < |expected| && 'a' <= expected[i] <= 'f'
    ensures var expected := HexEncode(mac(Utf8(keySecret), Utf8(Payload(orderId, paymentId))));
            SignatureCheck(mac, keySecret, orderId, paymentId, expected) == Success(true) &&
            SignatureCheck(mac, keySecret, orderId, paymentId, ToUpper(expected)) == Success(false)
  {
    var expected := HexEncode(mac(Utf8(keySecret), Utf8(Payload(orderId, paymentId))));
    assert ToUpper(expected)[i] != expected[i];
  }

  class RazorpayService {
    /** The public key id, given to the checkout widget. */
    const keyId: string
    /** The key secret, used only to sign and check. */
    const keySecret: string

    /** The `RazorpayClient` built from the same pair is the `OrdersApi`
        parameter of `CreateOrder`. */
    constructor(keyId: string, keySecret: string)
      ensures this.keyId == keyId && this.keySecret == keySecret
    {
      this.keyId := keyId;
      this.keySecret := keySecret;
    }

    /** `getKeyId`: the only part of the key pair the service hands out. */
    function GetKeyId(): (r: string)
      ensures r == keyId
    {
      keyId
    }

    /** `createOrder`: fills the request entry by entry, asks the gateway,
        and answers with the gateway's id but the amount and currency it
        asked for, not values read back from the gateway. */
    method CreateOrder(amountInPaise: int32, receipt: string, api: OrdersApi)
      returns (r: Result<OrderCreated, Exception>)
      ensures api(OrderOptions(amountInPaise, receipt)).None? ==> r == Failure(GatewayFailure)
      ensures api(OrderOptions(amountInPaise, receipt)).Some? ==>
        r == Success(OrderCreated(api(OrderOptions(amountInPaise, receipt)).value, amountInPaise, "INR"))
    {
      var options: map<string, Json> := map[];
      options := options["amount" := JNumber(amountInPaise as int)];
      options := options["currency" := JString("INR")];
      options := options["receipt" := JString(receipt)];
      options := options["payment_capture" := JNumber(1)];
      assert options == OrderOptions(amountInPaise, receipt);
      var order := api(options);
      if order.None? {
        return Failure(GatewayFailure);
      }
      return Success(OrderCreated(order.value, amountInPaise, "INR"));
    }

    /** `verifySignature`: recompute the tag of `orderId|paymentId` and
        compare it with the submitted signature by exact string equality. */
    method VerifySignature(orderId: string, paymentId: string, signature: string, mac: Mac)
      returns (r: Result<bool, Exception>)
      ensures r == SignatureCheck(mac, keySecret, orderId, paymentId, signature)
    {
      var payload := orderId + "|" + paymentId;
      var expected := Sha256Hex(payload, keySecret, mac);
      if expected.Failure? {
        return Failure(expected.error);
      }
      return Success(expected.value == signature);
    }
  }
}
