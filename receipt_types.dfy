/** The records exchanged with the verification endpoints and the
    normalised purchase item. Wire records keep Apple's JSON key names;
    all their numeric and boolean fields arrive as strings. */
module ReceiptTypes {
  import opened Wrappers
  import opened JsNumbers

  /** One purchase or renewal event (`IReceiptInAppItem`), limited to the
      fields the core reads. */
  datatype InAppRecord = InAppRecord(
    quantity: string,
    product_id: string,
    transaction_id: string,
    original_transaction_id: string,
    purchase_date_ms: string,
    original_purchase_date_ms: string,
    expires_date_ms: Option<string>,
    cancellation_date_ms: Option<string>,
    is_trial_period: string,
    app_item_id: string
  )

  /** The decoded receipt (`IReceipt`); both arrays may be missing. */
  datatype Receipt = Receipt(
    bundle_id: string,
    in_app: Option<seq<InAppRecord>>,
    latest_receipt_info: Option<seq<InAppRecord>>
  )

  /** A verification response body (`IReceiptValidationResponseBody`). */
  datatype ResponseBody = ResponseBody(
    status: int,
    environment: string,
    receipt: Option<Receipt>,
    latest_receipt_info: Option<seq<InAppRecord>>
  )

  /** The normalised item (`PurchasedItem`); an absent optional date is
      `None`, a present one is whatever `parseInt` made of the string. */
  datatype PurchasedItem = PurchasedItem(
    bundleId: string,
    appItemId: string,
    originalTransactionId: string,
    transactionId: string,
    productId: string,
    originalPurchaseDate: JsNumber,
    expirationDateMS: Option<JsNumber>,
    purchaseDateMS: JsNumber,
    isTrialPeriod: bool,
    cancellationDateMS: Option<JsNumber>,
    quantity: JsNumber
  )

  /** A rejection reason: the library's `{rejectionMessage, data}` shape, or
      a raw error object carrying only its message. */
  datatype Rejection =
    | AppleError(rejectionMessage: string, data: Option<ResponseBody>)
    | ErrorObject(message: string)

  /** A JSON scalar in the request body. */
  datatype JsonValue = JString(str: string) | JBool(flag: bool)

  /** One POST to a verification endpoint. */
  datatype Request = Request(url: string, content: map<string, JsonValue>)

  /** What the HTTP transport makes of a request: the decoded body of an
      HTTP 200 answer, or a failure with the error's message. */
  datatype Transport = Response(body: ResponseBody) | TransportError(message: string)
}
