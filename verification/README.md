# Seva platform: payment orders, quiz scoring, room bookings, events and the mobile cache

This project is a Dafny model of the rule-bearing core of the seva platform, a temple's
devotee platform. Its parts are:

- **The seva payment-order lifecycle** (`seva_order.dfy`, `seva_order_service.dfy`,
  `seva_payment_service.dfy`, `razorpay_service.dfy`, `hmac_util.dfy`). A devotee books a seva,
  which creates an order in status `INITIATED`. The catalog price and title are copied into the
  order, and the personal details are stored only with consent. A Razorpay gateway order is then
  attached. Its receipt is `s_` followed by the 32 hexadecimal digits of the order's UUID, and it
  is requested for exactly the stored amount. Finally the checkout callback is verified. The
  signature is the lowercase hexadecimal HMAC-SHA256 tag of `orderId|paymentId`. When it matches,
  the order becomes `PAID` and the payment id and signature are recorded.
- **Quiz scoring** (`quiz_service.dfy`). The public question feed and the limit clamps are
  modelled. So is the `submit` loop that grades answers into a score and a feedback list, and the
  attempt it saves.
- **Room bookings** (`room_booking.dfy`, `room_booking_admin.dfy`).
  - A booking is stored as `NEW`. It then becomes `EMAIL_SENT` or `EMAIL_FAILED`, depending on
    the outcome of the notification mail.
  - The admin service parses statuses strictly and leniently, chooses the query for the list,
    masks personal fields without consent, sets a status by hand and resends the mail.
- **Events** (`event.dfy`, `event_service.dfy`).
  - The public feed is filtered by active flag, date range, type and scope, and each event is
    labelled with its weekday (`capitalize`) and its tithi label or the fallback.
  - `create` and `update` send a push notification exactly when the saved event asks for one.
- **The mobile app's cache slice** (`cache_slice.dfy`): `setCache`, `clearCache` and the initial
  state.

## How the model is organized

Entities that the Java code changes through setters (`SevaOrder`, `RoomBooking`, `Event`) are
Dafny classes. Their fields mirror the columns, and there is one framed setter per Lombok setter
the services call. `@PrePersist` and `@PreUpdate` are methods on these classes.

A repository is a class holding the table as a `map` from id to a row value. Its behaviour:

- `findById` hands out a fresh entity built from the stored row.
- `save` on a new entity generates the id (a parameter) and runs `onCreate`.
- `save` on a loaded entity writes it back.
- For `SevaOrder`, `onUpdate` runs only when some field changed. This is the persistence
  layer's dirty check.

Every service operation has a pure transition function over the table: `CreateStep`,
`GatewayOrderStep`, `VerifyStep`, `UpdateStatusStep` and so on. The function gives what the call
returns or throws and the table afterwards. The imperative method's `ensures` equates its result
and new state with that function, and the lemmas state the properties of the functions.

Effects outside the core are parameters:

- the clock `now`;
- the generated id `freshId`;
- the HMAC primitive `mac`, an uninterpreted function from key and message octets to a 32-octet
  tag;
- the gateway's `orders.create`, an `OrdersApi` function from the request to `Some(id)` or
  `None` when the client throws;
- whether the mail was sent;
- the Firestore user lookup;
- the authenticated principal.

Push notifications are recorded in the `pushes` field of `EventService`. The ghost `saves` log of
the booking repository keeps the intermediate `NEW` write of `create` observable.

Java `String` is `seq<char>`. `trim`, `isBlank` (Java's `Character.isWhitespace` set) and ASCII
case mapping are defined in `java_text.dfy`. Java `int` fields are `int32`. A `LocalDate` is an
epoch-day number and an `Instant` a millisecond count.

The model follows the code as written, including these behaviours a reader might not expect:

- `razorpayOrderId` is overwritten by every successful gateway-order call. There is no set-once
  guard (`GatewayOrderIdOverwritten`).
- Verify has no status check, so an order that is already `PAID` is verified again and its
  payment fields are rewritten (`PaidOrderReverified`).
- The signature comparison is plain `String.equals`, not a constant-time comparison. It is
  case-sensitive (`SignatureCaseSensitive`).
- A repeated successful verify changes nothing, because the dirty check finds no changed field
  (`VerifyRepeatIsNoOp`).
- The event notification's title uses `EventType.toString()`, which is the constant's name.
- `EventResponseDto.from` passes location, type and scope into shifted slots. The model stops
  before that mapping: the feed entries hold the event row and its two labels.

## Model

| member | source | states |
|---|---|---|
| SevaOrders.Stamped | seva_platform/src/main/java/com/seva/platform/model/SevaOrder.java:53-58 | `onCreate` on a row. It makes the row persistable and keeps a preset timestamp. When both timestamps are null they become the same instant. Nothing else changes. |
| SevaOrders.Flushed | seva_platform/src/main/java/com/seva/platform/model/SevaOrder.java:60-61 | `onUpdate` runs only when a field differs from the stored row. It then refreshes `updatedAt` to `now` and changes nothing else; `createdAt` is never touched. |
| SevaOrders.SevaOrder.Build | seva_platform/src/main/java/com/seva/platform/model/SevaOrder.java:9-51 | The builder sets the seven builder fields. Id, personal details, gateway fields and timestamps stay null. |
| SevaOrders.SevaOrder.Load | seva_platform/src/main/java/com/seva/platform/model/SevaOrder.java:10-51 | A loaded entity holds exactly the stored row. |
| SevaOrders.SevaOrder.SetFullName | seva_platform/src/main/java/com/seva/platform/model/SevaOrder.java:34 | Changes `fullName` and no other field. |
| SevaOrders.SevaOrder.SetEmail | seva_platform/src/main/java/com/seva/platform/model/SevaOrder.java:36 | Changes `email` and no other field. |
| SevaOrders.SevaOrder.SetAddressLine1 | seva_platform/src/main/java/com/seva/platform/model/SevaOrder.java:37 | Changes `addressLine1` and no other field. |
| SevaOrders.SevaOrder.SetAddressLine2 | seva_platform/src/main/java/com/seva/platform/model/SevaOrder.java:38 | Changes `addressLine2` and no other field. |
| SevaOrders.SevaOrder.SetCity | seva_platform/src/main/java/com/seva/platform/model/SevaOrder.java:39 | Changes `city` and no other field. |
| SevaOrders.SevaOrder.SetState | seva_platform/src/main/java/com/seva/platform/model/SevaOrder.java:40 | Changes `state` and no other field. |
| SevaOrders.SevaOrder.SetPincode | seva_platform/src/main/java/com/seva/platform/model/SevaOrder.java:41 | Changes `pincode` and no other field. |
| SevaOrders.SevaOrder.SetStatus | seva_platform/src/main/java/com/seva/platform/model/SevaOrder.java:28-29 | Changes the free-text `status` and no other field. |
| SevaOrders.SevaOrder.SetRazorpayOrderId | seva_platform/src/main/java/com/seva/platform/model/SevaOrder.java:43 | Changes `razorpayOrderId` and no other field. |
| SevaOrders.SevaOrder.SetRazorpayPaymentId | seva_platform/src/main/java/com/seva/platform/model/SevaOrder.java:44 | Changes `razorpayPaymentId` and no other field. |
| SevaOrders.SevaOrder.SetRazorpaySignature | seva_platform/src/main/java/com/seva/platform/model/SevaOrder.java:45 | Changes `razorpaySignature` and no other field. |
| SevaOrders.SevaOrder.OnCreate | seva_platform/src/main/java/com/seva/platform/model/SevaOrder.java:53-58 | Each timestamp becomes `now` only when it is null, a preset value is kept, and both-null gives equal timestamps. The new row is `Stamped` of the old one. |
| SevaOrders.SevaOrder.OnUpdate | seva_platform/src/main/java/com/seva/platform/model/SevaOrder.java:60-61 | `updatedAt` becomes `now`. Every other field, `createdAt` included, is unchanged. |
| SevaOrders.SevaOrderRepository.FindById | seva_platform/src/main/java/com/seva/platform/service/SevaPaymentService.java:20 | Present exactly when the id is stored; then a fresh entity holding the stored row. |
| SevaOrders.SevaOrderRepository.Save | seva_platform/src/main/java/com/seva/platform/service/SevaOrderService.java:45 | A new order gets the generated id and is `Stamped`. A loaded order is written back as `Flushed` against its stored row. The table gains or replaces exactly that row and stays well formed. |
| SevaOrderCreation.CreateStep | seva_platform/src/main/java/com/seva/platform/service/SevaOrderService.java:22-48 | `create` fails exactly when the seva id is unknown, with `NoSuchElement` and nothing saved. Otherwise exactly one row is added under the generated id and every other row is kept. |
| SevaOrderCreation.CreateStepKnown | seva_platform/src/main/java/com/seva/platform/service/SevaOrderService.java:22-47 | For a known seva the result is the new order row under the generated id, answered with id, seva title, price and `INITIATED`. |
| SevaOrderCreation.CreatedOrder | seva_platform/src/main/java/com/seva/platform/service/SevaOrderService.java:25-47 | The saved order is `INITIATED`, owned by the caller and for the looked-up seva, with its title and price copied. Consent holds iff the flag is `TRUE`, so null is no consent. The mobile number is kept whatever the consent. The seven other personal fields are present only with consent. There are no gateway fields and both timestamps are the creation instant. The response echoes the row. |
| SevaOrderCreation.CreateKeepsStored | seva_platform/src/main/java/com/seva/platform/service/SevaOrderService.java:45 | Creating keeps every stored row keyed by its UUID id and persistable. |
| SevaOrderCreation.CreateIgnoresActive | seva_platform/src/main/java/com/seva/platform/service/SevaOrderService.java:23-33 | There is no `active` check: a seva switched off yields the same order. |
| SevaOrderCreation.SevaOrderService.NewOrder | seva_platform/src/main/java/com/seva/platform/service/SevaOrderService.java:25-43 | The builder followed by the seven consent-gated setters yields exactly `BuiltOrder`. |
| SevaOrderCreation.SevaOrderService.Create | seva_platform/src/main/java/com/seva/platform/service/SevaOrderService.java:22-48 | The result and the new table are exactly `CreateStep` of the old table. |
| JavaText.IsBlank | seva_platform/src/main/java/com/seva/platform/service/admin/RoomBookingAdminService.java:117 | `isBlank` holds for the empty text. In a blank text every ASCII character is at or below U+0020, so `trim` cuts it. |
| JavaText.Trim | seva_platform/src/main/java/com/seva/platform/service/admin/RoomBookingAdminService.java:110 | `trim` never lengthens, and what it leaves neither starts nor ends with a character at or below U+0020. |
| JavaText.TrimIsSlice | seva_platform/src/main/java/com/seva/platform/service/admin/RoomBookingAdminService.java:110 | The result of `trim` is one slice `s[i..j]` of the input, and everything cut in front of `i` and from `j` on is at or below U+0020. With Trim's own contract this determines the result. |
| JavaText.TrimPadded | seva_platform/src/main/java/com/seva/platform/service/admin/RoomBookingAdminService.java:110 | Any padding of characters at or below U+0020 on both sides of a word whose ends are above U+0020 is removed by `trim`, and nothing else. |
| JavaText.ToUpper | seva_platform/src/main/java/com/seva/platform/service/admin/RoomBookingAdminService.java:110 | `toUpperCase` keeps the length and upper-cases each character in place. |
| JavaText.ToLower | seva_platform/src/main/java/com/seva/platform/service/EventService.java:126 | `toLowerCase` keeps the length and lower-cases each character in place. |
| JavaText.EqualsIgnoreCase | seva_platform/src/main/java/com/seva/platform/service/QuizService.java:69 | `equalsIgnoreCase` is reflexive, and texts it relates have the same length. |
| JavaText.EqualsIgnoreCaseIff | seva_platform/src/main/java/com/seva/platform/service/QuizService.java:69 | Two texts are equal ignoring case iff their upper-case forms are equal. |
| JavaText.RemoveAll | seva_platform/src/main/java/com/seva/platform/service/SevaPaymentService.java:24 | `replace("-", "")` leaves no hyphen, is never longer, and changes nothing without hyphens. |
| JavaText.RemoveAllAppend | seva_platform/src/main/java/com/seva/platform/service/SevaPaymentService.java:24 | Removing a character distributes over concatenation. |
| SevaPayments.Receipt | seva_platform/src/main/java/com/seva/platform/service/SevaPaymentService.java:24-25 | The receipt fails with `StringIndexOutOfBounds` exactly when fewer than 32 characters remain without hyphens. Otherwise it is 34 characters: `s_` and no hyphen after it. |
| SevaPayments.UuidCompact | seva_platform/src/main/java/com/seva/platform/service/SevaPaymentService.java:24 | Removing the hyphens of a textual UUID leaves its five digit groups joined. |
| SevaPayments.ReceiptOfUuid | seva_platform/src/main/java/com/seva/platform/service/SevaPaymentService.java:24-25 | Every UUID order id has a receipt: `s_` and all its 32 digits, from which the id is rebuilt. |
| SevaPayments.ReceiptInjectiveOnUuids | seva_platform/src/main/java/com/seva/platform/service/SevaPaymentService.java:24-25 | Two distinct UUID order ids never share a receipt. |
| SevaPayments.GatewayOrderStep | seva_platform/src/main/java/com/seva/platform/service/SevaPaymentService.java:19-33 | A failure leaves the table as it was. A success changes only the requested order. |
| SevaPayments.GatewayOrderOutcome | seva_platform/src/main/java/com/seva/platform/service/SevaPaymentService.java:20-27 | The refusals come in order: a missing order gives `NoSuchElement`, another owner gives "Forbidden", a status other than `INITIATED` gives "Order not payable: " plus the status, and a gateway failure comes last. A gateway order is attached iff the order exists, is the caller's, is `INITIATED` and the gateway answers. |
| SevaPayments.GatewayOrderRecorded | seva_platform/src/main/java/com/seva/platform/service/SevaPaymentService.java:27-32 | On success the gateway is asked for the stored amount in INR. The answer carries the key id, the new gateway id, that amount and INR. The order changes only in `razorpayOrderId` and, through the dirty check, `updatedAt`; it stays `INITIATED`. |
| SevaPayments.GatewayOrderIdOverwritten | seva_platform/src/main/java/com/seva/platform/service/SevaPaymentService.java:29-30 | There is no set-once guard: a second successful call replaces the recorded gateway id. |
| SevaPayments.GatewayOrderKeepsStored | seva_platform/src/main/java/com/seva/platform/service/SevaPaymentService.java:30 | Attaching a gateway order keeps the table well formed. |
| SevaPayments.VerifyStep | seva_platform/src/main/java/com/seva/platform/service/SevaPaymentService.java:35-49 | A failure or a `verified=false` answer leaves the table unchanged. Otherwise only the requested order changes. |
| SevaPayments.VerifyRefusals | seva_platform/src/main/java/com/seva/platform/service/SevaPaymentService.java:36-39 | The refusals come in order: a missing order, "Forbidden", then "Razorpay order not created" when the gateway id is null or blank. An empty key secret surfaces as the wrapped `IllegalArgumentException`. |
| SevaPayments.VerifyOutcome | seva_platform/src/main/java/com/seva/platform/service/SevaPaymentService.java:41-48 | The answer is whether the signature equals the expected HMAC. If valid, the order is `PAID` with the payment id and signature and nothing else changes but `updatedAt`. If invalid, nothing changes. |
| SevaPayments.VerifyKeepsOrderTerms | seva_platform/src/main/java/com/seva/platform/service/SevaPaymentService.java:42-46 | Verify never changes owner, seva, price, personal details, gateway id or `createdAt`. |
| SevaPayments.PaidOrderReverified | seva_platform/src/main/java/com/seva/platform/service/SevaPaymentService.java:35-48 | There is no status precondition: a `PAID` order is verified again and its payment id is replaced. |
| SevaPayments.VerifyRepeatIsNoOp | seva_platform/src/main/java/com/seva/platform/service/SevaPaymentService.java:41-48 | Repeating a successful verification answers `true` and writes nothing, so `updatedAt` is not refreshed. |
| SevaPayments.VerifyKeepsStored | seva_platform/src/main/java/com/seva/platform/service/SevaPaymentService.java:46 | Verifying keeps the table well formed. |
| SevaPayments.PaymentLifecycle | seva_platform/src/main/java/com/seva/platform/service/SevaPaymentService.java:19-48 | The three calls in a row succeed: create, attach, then a callback with the gateway's signature. The order ends `PAID` with the catalog price, the gateway id, the payment id and the signature. |
| SevaPayments.SevaPaymentService.CreateRazorpayOrderForSeva | seva_platform/src/main/java/com/seva/platform/service/SevaPaymentService.java:19-33 | The result and the new table are exactly `GatewayOrderStep`. |
| SevaPayments.SevaPaymentService.VerifySevaPayment | seva_platform/src/main/java/com/seva/platform/service/SevaPaymentService.java:35-49 | The result and the new table are exactly `VerifyStep`. |
| Razorpay.SignatureCheck | seva_platform/src/main/java/com/seva/platform/service/RazorpayService.java:40-44 | It throws exactly for an empty key secret. Otherwise it is true iff the signature equals the lowercase hex HMAC of `orderId|paymentId`. |
| Razorpay.OrderOptions | seva_platform/src/main/java/com/seva/platform/service/RazorpayService.java:30-34 | The request holds exactly four entries: the amount in paise, currency `INR`, the receipt and `payment_capture` 1. |
| Razorpay.Payload | seva_platform/src/main/java/com/seva/platform/service/RazorpayService.java:41 | The payload is the order id, one bar, then the payment id, and nothing else. |
| Razorpay.PayloadInjective | seva_platform/src/main/java/com/seva/platform/service/RazorpayService.java:41 | Without a bar in the order ids, equal payloads mean equal order and payment ids. |
| Razorpay.PayloadAt | seva_platform/src/main/java/com/seva/platform/service/RazorpayService.java:41 | The payload is the order id, then one bar, then the payment id, position by position. |
| Razorpay.SignatureCaseSensitive | seva_platform/src/main/java/com/seva/platform/service/RazorpayService.java:43 | The exact tag is accepted. Its upper-case spelling is refused once the tag has a letter digit. |
| Razorpay.RazorpayService.constructor | seva_platform/src/main/java/com/seva/platform/service/RazorpayService.java:16-23 | The service keeps the configured key id and secret. |
| Razorpay.RazorpayService.GetKeyId | seva_platform/src/main/java/com/seva/platform/service/RazorpayService.java:25 | The key id handed out is the one the service was built with. |
| Razorpay.RazorpayService.CreateOrder | seva_platform/src/main/java/com/seva/platform/service/RazorpayService.java:29-38 | It requests exactly amount, INR, the receipt and `payment_capture` 1. It answers the gateway id with the requested amount and INR, or fails when the client throws. |
| Razorpay.RazorpayService.VerifySignature | seva_platform/src/main/java/com/seva/platform/service/RazorpayService.java:40-44 | Equals `SignatureCheck` under the service's secret. |
| Hmac.Utf8Char | seva_platform/src/main/java/com/seva/platform/service/HmacUtil.java:11-13 | One to four octets. A single octet exactly for ASCII, holding the code point. Lead and continuation octets are in their UTF-8 ranges. |
| Hmac.Utf8 | seva_platform/src/main/java/com/seva/platform/service/HmacUtil.java:11-13 | Between one and four octets per character. |
| Hmac.HexByte | seva_platform/src/main/java/com/seva/platform/service/HmacUtil.java:15 | `%02x` gives two lowercase hex digits whose value is the octet. |
| Hmac.HexEncode | seva_platform/src/main/java/com/seva/platform/service/HmacUtil.java:14-16 | Twice as long as the digest, and only `0-9a-f`. |
| Hmac.HexEncodeAt | seva_platform/src/main/java/com/seva/platform/service/HmacUtil.java:14-15 | Characters 2i and 2i+1 are the two digits of octet i. |
| Hmac.HexRoundTrip | seva_platform/src/main/java/com/seva/platform/service/HmacUtil.java:14-16 | Decoding the hex gives back the digest. |
| Hmac.HexEncodeInjective | seva_platform/src/main/java/com/seva/platform/service/HmacUtil.java:14-16 | Different digests render differently. |
| Hmac.HmacSha256Hex | seva_platform/src/main/java/com/seva/platform/service/HmacUtil.java:8-20 | It fails exactly for an empty secret, where `SecretKeySpec` throws and the error is wrapped. Otherwise it is 64 lowercase hex digits that decode to the MAC of the UTF-8 secret and data. |
| Hmac.Sha256Hex | seva_platform/src/main/java/com/seva/platform/service/HmacUtil.java:8-20 | The `StringBuilder` loop computes exactly `HmacSha256Hex`. |
| Quiz.SafeLimit | seva_platform/src/main/java/com/seva/platform/service/QuizService.java:35 | The clamp is within [1, max], keeps an in-range limit, and maps below to 1 and above to max. |
| Quiz.LimitsClamped | seva_platform/src/main/java/com/seva/platform/service/QuizService.java:103 | The feed's limit is within [1, 25] and the leaderboard's within [1, 50]. In-range limits are kept. |
| Quiz.PublicQuestions | seva_platform/src/main/java/com/seva/platform/service/QuizService.java:37-41 | One public question per drawn one, with the same id and text. The options are exactly A, B, C, D in that order. |
| Quiz.Normalize | seva_platform/src/main/java/com/seva/platform/service/QuizService.java:192-194 | Null becomes "". Otherwise the result is upper case, trimmed and never longer. |
| Quiz.NormalizeIsTrimmedUpper | seva_platform/src/main/java/com/seva/platform/service/QuizService.java:192-194 | A normalized answer is the upper case of one slice of the answer, cut only at characters at or below U+0020. |
| Quiz.NormalizeIdempotent | seva_platform/src/main/java/com/seva/platform/service/QuizService.java:192-194 | Normalizing twice is normalizing once. |
| Quiz.IsCorrect | seva_platform/src/main/java/com/seva/platform/service/QuizService.java:66-69 | A correct answer is never null, and it normalizes to a single character. |
| Quiz.IsCorrectIff | seva_platform/src/main/java/com/seva/platform/service/QuizService.java:67-69 | `equalsIgnoreCase` on the normalized answer holds iff it equals the key's letter. |
| Quiz.CorrectOptionUnique | seva_platform/src/main/java/com/seva/platform/service/QuizService.java:67-69 | An answer matches at most one key. |
| Quiz.PaddedLowerCaseAccepted | seva_platform/src/main/java/com/seva/platform/service/QuizService.java:67-69 | The key's letter in lower case, with any padding of characters at or below U+0020 on either side, is correct. A null or empty answer never is. |
| Quiz.GradeOne | seva_platform/src/main/java/com/seva/platform/service/QuizService.java:64-79 | At most one feedback entry, and one exactly when the question id is known. |
| Quiz.Grade | seva_platform/src/main/java/com/seva/platform/service/QuizService.java:63-80 | The feedback is never longer than the answers. |
| Quiz.GradeAppend | seva_platform/src/main/java/com/seva/platform/service/QuizService.java:63-80 | Feedback keeps answer order: grading a concatenation concatenates the gradings. |
| Quiz.GradeAllKnown | seva_platform/src/main/java/com/seva/platform/service/QuizService.java:63-80 | With every question known, entry i is the grading of answer i. |
| Quiz.FeedbackConsistent | seva_platform/src/main/java/com/seva/platform/service/QuizService.java:67-79 | Each entry is for a known question and carries that question's key letter. It is correct iff the normalized answer equals the letter. |
| Quiz.CountCorrect | seva_platform/src/main/java/com/seva/platform/service/QuizService.java:69-71 | The count of entries marked correct is at most the number of entries. It is 0 iff no entry is correct, and the full number iff every entry is. |
| Quiz.ScoreBounds | seva_platform/src/main/java/com/seva/platform/service/QuizService.java:59-80 | score <= feedback size <= total. Unknown questions add neither score nor feedback. |
| Quiz.ScoreAnswers | seva_platform/src/main/java/com/seva/platform/service/QuizService.java:59-80 | The loop returns total = number of answers, feedback = `Grade`, and score = the count of correct entries, within those bounds. |
| Quiz.DisplayName | seva_platform/src/main/java/com/seva/platform/service/QuizService.java:176-190 | The result is never blank. It is a non-blank full name when the document has one, else "Anonymous". |
| Quiz.QuizAttemptRepository.Save | seva_platform/src/main/java/com/seva/platform/service/QuizService.java:90 | The attempt is stored under its id. |
| Quiz.QuizService.Submit | seva_platform/src/main/java/com/seva/platform/service/QuizService.java:45-100 | Unauthenticated: "Not authenticated" and nothing saved. Otherwise one attempt is saved with uid, display name, score, total and time, and the answer is its id, uid, score, total and feedback. |
| RoomBookings.ValueOf | seva_platform/src/main/java/com/seva/platform/model/RoomBooking.java:14-18 | `valueOf` finds only the constant with exactly that name. |
| RoomBookings.ValueOfName | seva_platform/src/main/java/com/seva/platform/model/RoomBooking.java:14-18 | `valueOf(name())` is the constant. |
| RoomBookings.RoomBooking.Build | seva_platform/src/main/java/com/seva/platform/service/RoomBookingService.java:25-34 | Every request field is copied and the status is given. Id and `createdAt` are null. |
| RoomBookings.RoomBooking.Load | seva_platform/src/main/java/com/seva/platform/model/RoomBooking.java:12-49 | A loaded entity holds exactly the stored row. |
| RoomBookings.RoomBooking.SetStatus | seva_platform/src/main/java/com/seva/platform/service/RoomBookingService.java:40 | Changes the status and no other field. |
| RoomBookings.RoomBooking.OnCreate | seva_platform/src/main/java/com/seva/platform/model/RoomBooking.java:51-54 | `createdAt` becomes `now` only when it is null. Nothing else changes. |
| RoomBookings.RoomBookingRepository.FindById | seva_platform/src/main/java/com/seva/platform/service/admin/RoomBookingAdminService.java:43 | Present exactly when stored; then a fresh entity holding the stored row. |
| RoomBookings.RoomBookingRepository.Save | seva_platform/src/main/java/com/seva/platform/service/RoomBookingService.java:36 | A new booking is `Persisted` under the generated id, and a loaded one is written as it is. The table gets that row and every write is logged. |
| RoomBookings.Persisted | seva_platform/src/main/java/com/seva/platform/model/RoomBooking.java:51-54 | An inserted row carries the id and a creation time, keeping a preset one. Nothing else changes. |
| RoomBookings.CreateStep | seva_platform/src/main/java/com/seva/platform/service/RoomBookingService.java:23-48 | `create` never fails. Exactly one row is added and the other rows are kept. |
| RoomBookings.CreateOutcome | seva_platform/src/main/java/com/seva/platform/service/RoomBookingService.java:25-46 | The response status is the stored status and never `NEW`. It is `EMAIL_SENT` iff the mail went out. The booking id is the saved id. Every request field is stored verbatim, whatever the consent. |
| RoomBookings.CreateKeepsStored | seva_platform/src/main/java/com/seva/platform/service/RoomBookingService.java:36-45 | Creating keeps the table well formed. |
| RoomBookings.RoomBookingService.RecordMailOutcome | seva_platform/src/main/java/com/seva/platform/service/RoomBookingService.java:38-47 | Both branches set and save the status the mail attempt left, and answer with it. |
| RoomBookings.RoomBookingService.Create | seva_platform/src/main/java/com/seva/platform/service/RoomBookingService.java:23-48 | The result and new table are `CreateStep`. The writes are the `NEW` row, then the same row in its final status. |
| RoomBookingAdmin.Safe | seva_platform/src/main/java/com/seva/platform/service/admin/RoomBookingAdminService.java:103-105 | Never blank. It is "-" iff the input is null, blank or "-"; otherwise it is the input unchanged. |
| RoomBookingAdmin.ParseStatus | seva_platform/src/main/java/com/seva/platform/service/admin/RoomBookingAdminService.java:107-114 | Null: "status is required". Otherwise it succeeds iff the trimmed, upper-cased text names a constant, and then gives that constant. Any other text gets "Invalid status: " quoting the raw text. |
| RoomBookingAdmin.ParseStatusOrNull | seva_platform/src/main/java/com/seva/platform/service/admin/RoomBookingAdminService.java:116-123 | Null gives no status, and nothing throws. Otherwise a status is found iff the trimmed, upper-cased text names a constant, and it is that constant. Blank text names none. |
| RoomBookingAdmin.ParsersAgree | seva_platform/src/main/java/com/seva/platform/service/admin/RoomBookingAdminService.java:107-123 | The lenient parser gives a status iff the strict one does, and the same one. |
| RoomBookingAdmin.StatusNameParses | seva_platform/src/main/java/com/seva/platform/service/admin/RoomBookingAdminService.java:107-123 | Each constant's name parses to it, by both parsers. |
| RoomBookingAdmin.PaddedLowerCaseParses | seva_platform/src/main/java/com/seva/platform/service/admin/RoomBookingAdminService.java:107-123 | A lower-case name, with any padding of characters at or below U+0020 on either side, parses to its constant under both parsers. |
| RoomBookingAdmin.ListQuery | seva_platform/src/main/java/com/seva/platform/service/admin/RoomBookingAdminService.java:27-37 | A date query is chosen iff both dates are given, and it carries those dates. A status query is chosen iff the status parses leniently, and it carries the parsed status. |
| RoomBookingAdmin.ListFilters | seva_platform/src/main/java/com/seva/platform/service/admin/RoomBookingAdminService.java:27-37 | A booking is listed iff it has the parsed status (when one parses) and its check-in is in the range (when both ends are given). An invalid status or a lone bound filters nothing. |
| RoomBookingAdmin.ToSummary | seva_platform/src/main/java/com/seva/platform/service/admin/RoomBookingAdminService.java:72-84 | Id, status name and consent are copied and the mobile number is `safe`. A null creation time stays null. |
| RoomBookingAdmin.ToDetail | seva_platform/src/main/java/com/seva/platform/service/admin/RoomBookingAdminService.java:86-101 | As for the summary, for the detail view. |
| RoomBookingAdmin.ViewsMask | seva_platform/src/main/java/com/seva/platform/service/admin/RoomBookingAdminService.java:72-101 | Without consent, name, email and notes show "(no consent)" and the views do not depend on them. With consent they show `safe` values. The mobile number is never masked. |
| RoomBookingAdmin.Summaries | seva_platform/src/main/java/com/seva/platform/service/admin/RoomBookingAdminService.java:39 | One summary per row, in order. Masked when the row has no consent. |
| RoomBookingAdmin.GetStep | seva_platform/src/main/java/com/seva/platform/service/admin/RoomBookingAdminService.java:42-45 | "Booking not found" iff the id is unknown. Otherwise the detail view of the row. |
| RoomBookingAdmin.UpdateStatusStep | seva_platform/src/main/java/com/seva/platform/service/admin/RoomBookingAdminService.java:47-54 | A failure changes nothing. Other bookings are never changed. |
| RoomBookingAdmin.UpdateStatusOutcome | seva_platform/src/main/java/com/seva/platform/service/admin/RoomBookingAdminService.java:48-54 | The refusals come in order: not found, required, invalid. On success exactly the parsed status replaces the old one, and the id and the status name are echoed. |
| RoomBookingAdmin.ResendStep | seva_platform/src/main/java/com/seva/platform/service/admin/RoomBookingAdminService.java:56-70 | Fails iff the id is unknown, changing nothing. Otherwise only that booking changes. |
| RoomBookingAdmin.ResendOutcome | seva_platform/src/main/java/com/seva/platform/service/admin/RoomBookingAdminService.java:57-69 | The booking ends `EMAIL_SENT` iff the mail went out, never `NEW`, and nothing is rethrown. This is what setting that status by hand gives. Resending twice is resending once. |
| RoomBookingAdmin.StatusChangesKeepStored | seva_platform/src/main/java/com/seva/platform/service/admin/RoomBookingAdminService.java:52-67 | Both actions keep the table well formed. |
| RoomBookingAdmin.RoomBookingAdminService.Get | seva_platform/src/main/java/com/seva/platform/service/admin/RoomBookingAdminService.java:42-45 | Equals `GetStep`. |
| RoomBookingAdmin.RoomBookingAdminService.UpdateStatus | seva_platform/src/main/java/com/seva/platform/service/admin/RoomBookingAdminService.java:47-54 | Result and new table are `UpdateStatusStep`. One write on success, none on failure. |
| RoomBookingAdmin.RoomBookingAdminService.ResendEmail | seva_platform/src/main/java/com/seva/platform/service/admin/RoomBookingAdminService.java:56-70 | Result and new table are `ResendStep`. One write on success, none on failure. |
| Events.Applied | seva_platform/src/main/java/com/seva/platform/service/EventService.java:83-92 | The ten request fields are overwritten. Id and creation time are kept. |
| Events.Event.Build | seva_platform/src/main/java/com/seva/platform/service/EventService.java:58-69 | The ten request fields are copied. Id and creation time are null. |
| Events.Event.Load | seva_platform/src/main/java/com/seva/platform/model/Event.java:14-51 | A loaded entity holds exactly the stored row. |
| Events.Event.SetTitle | seva_platform/src/main/java/com/seva/platform/service/EventService.java:83 | Changes the title and no other field. |
| Events.Event.SetDescription | seva_platform/src/main/java/com/seva/platform/service/EventService.java:84 | Changes the description and no other field. |
| Events.Event.SetEventDate | seva_platform/src/main/java/com/seva/platform/service/EventService.java:85 | Changes the date and no other field. |
| Events.Event.SetLocation | seva_platform/src/main/java/com/seva/platform/service/EventService.java:86 | Changes the location and no other field. |
| Events.Event.SetImageUrl | seva_platform/src/main/java/com/seva/platform/service/EventService.java:87 | Changes the image URL and no other field. |
| Events.Event.SetType | seva_platform/src/main/java/com/seva/platform/service/EventService.java:88 | Changes the type and no other field. |
| Events.Event.SetScope | seva_platform/src/main/java/com/seva/platform/service/EventService.java:89 | Changes the scope and no other field. |
| Events.Event.SetNotifyUsers | seva_platform/src/main/java/com/seva/platform/service/EventService.java:90 | Changes the notify flag and no other field. |
| Events.Event.SetTithiLabel | seva_platform/src/main/java/com/seva/platform/service/EventService.java:91 | Changes the tithi label and no other field. |
| Events.Event.SetActive | seva_platform/src/main/java/com/seva/platform/service/EventService.java:92 | Changes the active flag and no other field. |
| Events.Event.OnCreate | seva_platform/src/main/java/com/seva/platform/model/Event.java:53-56 | `createdAt` becomes `now` only when null. Nothing else changes. |
| Events.EventRepository.FindById | seva_platform/src/main/java/com/seva/platform/service/EventService.java:81 | Present exactly when stored; then a fresh entity holding the stored row. |
| Events.EventRepository.Save | seva_platform/src/main/java/com/seva/platform/service/EventService.java:71 | A new event gets the generated id and a creation time, and a loaded one is written as it is. The table gets that row. |
| Events.EventRepository.DeleteById | seva_platform/src/main/java/com/seva/platform/service/EventService.java:104 | The row is removed. An unknown id is ignored. |
| EventServices.DayOf | seva_platform/src/main/java/com/seva/platform/service/EventService.java:44 | The weekday of an epoch day: ordinal (day + 3) mod 7, since 1970-01-01 was a Thursday. |
| EventServices.DayOfNext | seva_platform/src/main/java/com/seva/platform/service/EventService.java:44 | Consecutive days have consecutive weekdays, Sunday wraps to Monday, the week repeats, and day 0 is a Thursday. |
| EventServices.Capitalize | seva_platform/src/main/java/com/seva/platform/service/EventService.java:124-128 | Null or blank input is returned unchanged. Otherwise the length is kept, the first character is upper-cased and the rest lower-cased. |
| EventServices.CapitalizeKeepsNonBlank | seva_platform/src/main/java/com/seva/platform/service/EventService.java:124-128 | Non-blank text stays non-blank. |
| EventServices.CapitalizeIdempotent | seva_platform/src/main/java/com/seva/platform/service/EventService.java:124-128 | Capitalizing twice is capitalizing once. |
| EventServices.Weekday | seva_platform/src/main/java/com/seva/platform/service/EventService.java:44-45 | The day's name with its first letter kept and the rest lower-cased. |
| EventServices.Tithi | seva_platform/src/main/java/com/seva/platform/service/EventService.java:46-48 | "Tithi not published" for a null or blank label, else the trimmed label. |
| EventServices.TithiEmptyOnlyForControlCharacters | seva_platform/src/main/java/com/seva/platform/service/EventService.java:46-48 | The label shown is empty iff the label is non-blank but trims to nothing. A lone U+0000 is such a label. |
| EventServices.NotificationFor | seva_platform/src/main/java/com/seva/platform/service/EventService.java:115-116 | Title is the type's name plus " Event". Body is title • weekday • tithi. |
| EventServices.PushesFor | seva_platform/src/main/java/com/seva/platform/service/EventService.java:73-75 | One notification, for the saved event, iff it has `notifyUsers`; none otherwise. |
| EventServices.PublicCriteria | seva_platform/src/main/java/com/seva/platform/service/EventService.java:29-39 | The specification starts with the `active` clause. |
| EventServices.PublicCriteriaMeaning | seva_platform/src/main/java/com/seva/platform/service/EventService.java:29-39 | An event passes iff it is active, in the inclusive range when both dates are given, and of the type and scope when given. |
| EventServices.ListPublic | seva_platform/src/main/java/com/seva/platform/service/EventService.java:27-51 | Only matching events of the table are listed, each with its weekday and tithi labels. |
| EventServices.ListPublicComplete | seva_platform/src/main/java/com/seva/platform/service/EventService.java:41 | Every matching event is listed. |
| EventServices.ListPublicSorted | seva_platform/src/main/java/com/seva/platform/service/EventService.java:41 | The feed keeps the repository's date order. |
| EventServices.CreateEventStep | seva_platform/src/main/java/com/seva/platform/service/EventService.java:57-78 | `create` always succeeds. Exactly one row is added and the other rows are kept. |
| EventServices.UpdateEventStep | seva_platform/src/main/java/com/seva/platform/service/EventService.java:80-101 | An unknown id gives `NoSuchElement`, with no change and no push. Otherwise only that event changes. |
| EventServices.NotifyIffFlag | seva_platform/src/main/java/com/seva/platform/service/EventService.java:73-98 | `create` and `update` push one notification, for the saved event, iff `notifyUsers` is set. The saved event is returned. |
| EventServices.UpdateLikeCreate | seva_platform/src/main/java/com/seva/platform/service/EventService.java:80-101 | An update stores what a creation would, under the event's id and creation time. Repeating it changes nothing more. |
| EventServices.DeleteEventStep | seva_platform/src/main/java/com/seva/platform/service/EventService.java:103-105 | The id is removed and every other row is kept. |
| EventServices.EventChangesKeepStored | seva_platform/src/main/java/com/seva/platform/service/EventService.java:57-105 | Create, update and delete keep the table well formed. |
| EventServices.EventService.SendEventNotification | seva_platform/src/main/java/com/seva/platform/service/EventService.java:107-122 | Exactly one push, `NotificationFor` the event, is appended. |
| EventServices.EventService.Create | seva_platform/src/main/java/com/seva/platform/service/EventService.java:57-78 | The returned event, the table and the pushes are `CreateEventStep`. |
| EventServices.EventService.Overwrite | seva_platform/src/main/java/com/seva/platform/service/EventService.java:83-92 | The ten setters yield `Applied`. |
| EventServices.EventService.Update | seva_platform/src/main/java/com/seva/platform/service/EventService.java:80-101 | The result, the table and the pushes are `UpdateEventStep`. |
| EventServices.EventService.Delete | seva_platform/src/main/java/com/seva/platform/service/EventService.java:103-105 | The table becomes `DeleteEventStep`. |
| CacheSlice.Empty | seva_mobile/src/store/slices/cacheSlice.ts:13-16 | An entry with null data and a null time. |
| CacheSlice.InitialState | seva_mobile/src/store/slices/cacheSlice.ts:12-17 | Exactly the four keys, each with null data and time. |
| CacheSlice.SetCacheStep | seva_mobile/src/store/slices/cacheSlice.ts:31-32 | The key gets the data, and the given time or else `now` (a given 0 is kept). Other keys are unchanged. |
| CacheSlice.ClearCacheStep | seva_mobile/src/store/slices/cacheSlice.ts:34-35 | The key is emptied and other keys are unchanged. |
| CacheSlice.ClearCacheIdempotent | seva_mobile/src/store/slices/cacheSlice.ts:34-35 | Clearing twice is clearing once. Clearing after a set forgets the set. |
| CacheSlice.ClearInitial | seva_mobile/src/store/slices/cacheSlice.ts:12-35 | Clearing any key of the initial state changes nothing. |
| CacheSlice.SetCacheLastWins | seva_mobile/src/store/slices/cacheSlice.ts:31-32 | A later set of the same key wins. |
| CacheSlice.SetCacheCommutes | seva_mobile/src/store/slices/cacheSlice.ts:31-32 | Sets of different keys commute. |
| CacheSlice.CacheStore.constructor | seva_mobile/src/store/slices/cacheSlice.ts:12-21 | The store starts in the initial state. |
| CacheSlice.CacheStore.SetCache | seva_mobile/src/store/slices/cacheSlice.ts:23-33 | The new state is `SetCacheStep`, and every key stays present. |
| CacheSlice.CacheStore.ClearCache | seva_mobile/src/store/slices/cacheSlice.ts:34-36 | The new state is `ClearCacheStep`, and every key stays present. |

## Left out

- **HMAC-SHA256 itself.** `Mac.getInstance`, `init` and `doFinal` are the parameter `mac`, an uninterpreted function from key and message octets to a 32-octet tag. Only the UTF-8 encoding and the hex loop around it are modelled.
- **The Razorpay client.** `client.orders.create` is the parameter `api`, with `None` for any exception it throws. The `RazorpayClient` construction and the gateway's own checks are not modelled.
- **Persistence machinery.** Transactions and rollback, generated UUIDs (the parameter `freshId`) and the SQL queries are not modelled. A `save` that itself throws inside the `try` blocks of `RoomBookingService.create` and `RoomBookingAdminService.resendEmail` is not modelled either. Both methods are `@Transactional`, so such an exception marks the transaction rollback-only: the `catch` block runs, but the commit then fails, nothing is stored (not even the `NEW` row of `create`), and the caller gets an error rather than `EMAIL_FAILED`.
- **Concurrency.** Two racing gateway-order or verify calls are not modelled; the code has no compare-and-set.
- **Authentication and wiring.** The caller's uid is a trusted input, and the quiz principal is an `Option` uid. Token checks, controllers, validation annotations and configuration are not modelled.
- **Other services.** The Firestore lookup is the `UserLookup` parameter; its error log line is left out. `LookupFailed` stands only for the interrupted or failed lookup that `getUserNameFromFirestore` catches. The mail service is the `mailSent` flag. The push service's delivery, including its failures, is not modelled: a push is recorded in `pushes` and the saved event is returned either way. The event notification scheduler is not modelled.
- **Clocks.** `Instant.now` and `Date.now` are the parameter `now`. `DayOfWeek.from` is computed exactly from the epoch day.
- **Random draw and leaderboard queries.** `findActiveRandomLimited` and `findTopBestScores` are native queries. `PublicQuestions` maps whichever questions were drawn. Only the leaderboard's limit clamp is modelled, not its row mapping.
- **Quiz administration.** `listAll`, `create`, `update`, `delete` and `toAdmin` only copy fields.
- **`EventService.listAdmin` and the order of repository queries.** The public feed is modelled over the table in the repository's date order, which is given. The booking list is modelled by which rows each query selects, not by its sort order.
- **DTO mapping.** `EventResponseDto.from` is not modelled; it passes location, type and scope into shifted slots. The admin views keep `createdAt` as the instant instead of its `toString`.
- **The JVM default locale.** `toUpperCase` and `toLowerCase` are called without a `Locale` (`RoomBookingAdminService.java` lines 110 and 119, `QuizService.java` line 193, `EventService.java` line 126), so they follow the JVM's default locale. The model assumes a locale with root case mapping. Under a Turkish or Azeri locale, `i` upper-cases to `İ` and `I` lower-cases to `ı`. Then `"email_sent"` would no longer parse (RoomBookingAdmin.PaddedLowerCaseParses), and the weekday label of Friday would read "Frıday" (EventServices.Weekday). The quiz letters A to D are not affected.
- **Non-ASCII text.** Case mapping covers the ASCII letters only. Java strings are UTF-16: a lone surrogate, which `getBytes(UTF_8)` replaces by `?`, has no counterpart in Dafny's `char`.
- **Missing sources.** The Java enums `CorrectOption`, `EventType` and `EventScope` are not part of this model's sources. Their constants are taken from the comments in `QuizDto.java` and from `seva_ui/src/types/index.ts`.
- Quiz.QuizService.Submit: does not model a name lookup that throws an exception other than `InterruptedException` or `ExecutionException`, such as an `IllegalStateException` from `FirestoreClient.getFirestore()` or a `ClassCastException` when the stored `fullName` is not a string (`QuizService.java` lines 178-186). In the code such an exception escapes `submit` before the attempt is saved. The model always saves an attempt for an authenticated caller, because its lookup parameter has no outcome for an uncaught exception.
- Quiz.ScoreAnswers: does not model 32-bit overflow of `score` and `total`. It would need more than 2^31 answers in one request.
- Razorpay.RazorpayService.GetKeyId: its contract says only that it returns the configured key id, since the getter has no other behaviour. The secret has no getter.
- CacheSlice.SetCacheStep: `data` is typed `any` in the slice. It is modelled as an optional value of one type parameter per store.
