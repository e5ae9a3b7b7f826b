/** The status decision of one verification attempt, the expiry re-check
    behind the 21006 override, and the record-to-item mapping. The HTTP
    round trip is the parameter `send`; the clock is the parameter `now`
    (milliseconds since 1970). */
module LibInternal {
  import opened Wrappers
  import opened JsNumbers
  import opened Promises
  import opened ConstantsShared
  import opened ConstantsInternal
  import opened ReceiptTypes

  /** What `Math.max(...xs)` returns on parsed integers: NaN when any
      argument is NaN, -Infinity on no arguments, the largest value otherwise. */
  datatype MaxResult = MaxIsNaN | MinusInfinity | Finite(value: int)

  function MathMax(xs: seq<JsNumber>): (r: MaxResult)
    ensures r.MaxIsNaN? <==> exists i :: 0 <= i < |xs| && xs[i].NaN?
    ensures r.MinusInfinity? <==> xs == []
    ensures r.Finite? ==> forall i :: 0 <= i < |xs| ==> xs[i].Int? && xs[i].value <= r.value
    ensures r.Finite? ==> exists i :: 0 <= i < |xs| && xs[i] == Int(r.value)
  {
    if xs == [] then MinusInfinity
    else
      var init, x := xs[..|xs| - 1], xs[|xs| - 1];
      assert forall i :: 0 <= i < |init| ==> init[i] == xs[i];
      var m := MathMax(init);
      if m.MaxIsNaN? || x.NaN? then MaxIsNaN
      else if m.MinusInfinity? then Finite(x.value)
      else if x.value > m.value then Finite(x.value)
      else
        var j :| 0 <= j < |init| && init[j] == Int(m.value);
        assert xs[j] == Int(m.value);
        Finite(m.value)
  }

  /** `parseInt(lri.expires_date_ms, 10)`; a missing field reads as NaN. */
  function ExpiryOf(r: InAppRecord): JsNumber {
    match r.expires_date_ms
    case None => NaN
    case Some(s) => ParseInt(s)
  }

  function Expiries(lri: seq<InAppRecord>): (xs: seq<JsNumber>)
    ensures |xs| == |lri|
    ensures forall i :: 0 <= i < |lri| ==> xs[i] == ExpiryOf(lri[i])
  {
    seq(|lri|, i requires 0 <= i < |lri| => ExpiryOf(lri[i]))
  }

  /** Every renewal record carries a numeric expiry. */
  predicate AllExpiriesNumeric(lri: seq<InAppRecord>) {
    forall i :: 0 <= i < |lri| ==> ExpiryOf(lri[i]).Int?
  }

  /** Some renewal record expires strictly after `now`. */
  predicate SomeExpiryAfter(lri: seq<InAppRecord>, now: nat) {
    exists i :: 0 <= i < |lri| && ExpiryOf(lri[i]).Int? && ExpiryOf(lri[i]).value > now
  }

  /** `isExpiredAppleResponse`. In spite of its name it is true when the
      latest expiry of the top-level renewal list is still in the future,
      and false when that list is missing or empty, or when some record
      has no numeric expiry (`Math.max` then gives NaN, which is falsy). */
  function IsExpiredAppleResponse(data: ResponseBody, now: nat): (r: bool)
    ensures r <==> data.latest_receipt_info.Some?
                   && AllExpiriesNumeric(data.latest_receipt_info.value)
                   && SomeExpiryAfter(data.latest_receipt_info.value, now)
  {
    var date := MathMax(Expiries(data.latest_receipt_info.GetOr([])));
    match date
    case MaxIsNaN => false
    case MinusInfinity => false
    case Finite(v) => if v != 0 then v > now else false
  }

  /** `item.field ? parseInt(item.field, 10) : undefined`: a missing or
      empty string gives no date. */
  function OptionalDate(field: Option<string>): Option<JsNumber> {
    if field.Some? && field.value != "" then Some(ParseInt(field.value)) else None
  }

  /** `getPurchaseItem`: the normalised item of one wire record. The source
      reads `purchase.receipt.bundle_id`, so the receipt must be present. */
  function GetPurchaseItem(item: InAppRecord, purchase: ResponseBody): (r: PurchasedItem)
    requires purchase.receipt.Some?
    ensures r.isTrialPeriod <==> item.is_trial_period == "true"
    ensures r.expirationDateMS.None? <==> item.expires_date_ms.None? || item.expires_date_ms == Some("")
    ensures r.expirationDateMS.Some? ==> r.expirationDateMS.value == ParseInt(item.expires_date_ms.value)
    ensures r.cancellationDateMS.None? <==> item.cancellation_date_ms.None? || item.cancellation_date_ms == Some("")
    ensures r.cancellationDateMS.Some? ==> r.cancellationDateMS.value == ParseInt(item.cancellation_date_ms.value)
    ensures r.productId == item.product_id && r.transactionId == item.transaction_id
    ensures r.originalTransactionId == item.original_transaction_id && r.appItemId == item.app_item_id
    ensures r.bundleId == purchase.receipt.value.bundle_id
    ensures r.purchaseDateMS == ParseInt(item.purchase_date_ms)
    ensures r.originalPurchaseDate == ParseInt(item.original_purchase_date_ms)
    ensures r.quantity == ParseInt(item.quantity)
  {
    PurchasedItem(
      bundleId := purchase.receipt.value.bundle_id,
      appItemId := item.app_item_id,
      originalTransactionId := item.original_transaction_id,
      transactionId := item.transaction_id,
      productId := item.product_id,
      originalPurchaseDate := ParseInt(item.original_purchase_date_ms),
      expirationDateMS := OptionalDate(item.expires_date_ms),
      purchaseDateMS := ParseInt(item.purchase_date_ms),
      isTrialPeriod := item.is_trial_period == "true",
      cancellationDateMS := OptionalDate(item.cancellation_date_ms),
      quantity := ParseInt(item.quantity)
    )
  }

  /** A record whose numeric strings are decimal renderings of integers
      yields an item carrying exactly those integers. */
  lemma GetPurchaseItemReadsDecimals(item: InAppRecord, purchase: ResponseBody, purchased: nat, quantity: nat, expires: nat)
    requires purchase.receipt.Some?
    requires item.purchase_date_ms == DecimalString(purchased)
    requires item.quantity == DecimalString(quantity)
    requires item.expires_date_ms == Some(DecimalString(expires))
    ensures GetPurchaseItem(item, purchase).purchaseDateMS == Int(purchased)
    ensures GetPurchaseItem(item, purchase).quantity == Int(quantity)
    ensures GetPurchaseItem(item, purchase).expirationDateMS == Some(Int(expires))
  {
    ParseIntOfDecimal(purchased);
    ParseIntOfDecimal(quantity);
    ParseIntOfDecimal(expires);
  }

  const ReceiptDataKey: string := "receipt-data"
  const PasswordKey: string := "password"
  const ExcludeOldTransactionsKey: string := "exclude-old-transactions"

  /** The JSON request body. `JSON.stringify` drops a key whose value is
      `undefined`, so a missing password leaves no "password" key. */
  function RequestContent(receipt: string, password: Option<string>, excludeOldTransactions: bool): (c: map<string, JsonValue>)
    ensures c.Keys == {ReceiptDataKey, ExcludeOldTransactionsKey} + (if password.Some? then {PasswordKey} else {})
    ensures c[ReceiptDataKey] == JString(receipt)
    ensures c[ExcludeOldTransactionsKey] == JBool(excludeOldTransactions)
    ensures password.Some? ==> c[PasswordKey] == JString(password.value)
  {
    var base := map[ReceiptDataKey := JString(receipt), ExcludeOldTransactionsKey := JBool(excludeOldTransactions)];
    if password.Some? then base[PasswordKey := JString(password.value)] else base
  }

  /** The request body carries its three inputs unchanged: different inputs
      give different bodies. */
  lemma RequestContentInjective(r1: string, p1: Option<string>, e1: bool, r2: string, p2: Option<string>, e2: bool)
    requires RequestContent(r1, p1, e1) == RequestContent(r2, p2, e2)
    ensures r1 == r2 && p1 == p2 && e1 == e2
  {
    var c1, c2 := RequestContent(r1, p1, e1), RequestContent(r2, p2, e2);
    assert c1[ReceiptDataKey] == c2[ReceiptDataKey];
    assert c1[ExcludeOldTransactionsKey] == c2[ExcludeOldTransactionsKey];
    assert PasswordKey in c1 <==> PasswordKey in c2;
    if p1.Some? {
      assert c1[PasswordKey] == c2[PasswordKey];
    }
  }

  /** `STATUS_TO_MESSAGE_MAP[status] || 'Unknown'`. */
  function MessageFor(status: int): (m: string)
    ensures status in StatusToMessage ==> m == StatusToMessage[status]
    ensures status !in StatusToMessage ==> m == "Unknown"
  {
    if status in StatusToMessage && StatusToMessage[status] != "" then StatusToMessage[status] else "Unknown"
  }

  /** What `validateReceipt` settles with: a body, or `null` for "try the
      other endpoint", or a rejection. */
  type Attempt = Promise<Option<ResponseBody>, Rejection>

  /** `validateReceipt`: one attempt against `endpoint`, with the status-code
      policy applied to the answer. */
  function ValidateReceipt(endpoint: string, receipt: string, password: Option<string>,
                           excludeOldTransactions: bool, send: Request -> Transport, now: nat): (r: Attempt)
    ensures !r.Pending?
    ensures r.Fulfilled? && r.value.Some? ==> r.value.value.status == Code(Success)
    ensures r.Rejected? ==> r.reason.AppleError?
    ensures var answer := send(Request(endpoint, RequestContent(receipt, password, excludeOldTransactions)));
      && (answer.TransportError? ==> r == Rejected(AppleError(answer.message, None)))
      && (answer.Response? ==>
            var data := answer.body;
            && (data.status == Code(Success) ==> r == Fulfilled(Some(data)))
            && (r == Fulfilled(None) <==> data.status == Code(TestEnvReceiptDetected))
            && (data.status == Code(DataMalformed) ==>
                  r == Rejected(AppleError("The data in the receipt-data property was malformed.", Some(data))))
            && (data.status == Code(SubscriptionExpired) && !IsExpiredAppleResponse(data, now) ==>
                  r == Fulfilled(Some(data.(status := Code(Success)))))
            && (data.status !in {Code(Success), Code(TestEnvReceiptDetected), Code(DataMalformed)}
                && !(data.status == Code(SubscriptionExpired) && !IsExpiredAppleResponse(data, now)) ==>
                  r == Rejected(AppleError(MessageFor(data.status), Some(data)))))
  {
    var content := RequestContent(receipt, password, excludeOldTransactions);
    var p: Attempt := Pending;
    match send(Request(endpoint, content))
    case TransportError(message) =>
      // the first `reject` settles; the second is ignored
      Reject(Reject(p, AppleError(message, None)), ErrorObject(message))
    case Response(data) =>
      if data.status != Code(Success) && data.status != Code(TestEnvReceiptDetected)
         && data.status != Code(DataMalformed) then
        if data.status == Code(SubscriptionExpired) && !IsExpiredAppleResponse(data, now) then
          Resolve(p, Some(data.(status := Code(Success))))
        else
          Reject(p, AppleError(MessageFor(data.status), Some(data)))
      else if data.status == Code(TestEnvReceiptDetected) then
        Resolve(p, None)
      else if data.status == Code(DataMalformed) then
        StatusTableMessages();
        Reject(p, AppleError(MessageFor(data.status), Some(data)))
      else
        Resolve(p, Some(data))
  }
}
