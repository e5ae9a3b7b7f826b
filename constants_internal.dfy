/** The fixed status-to-message table and the two verification endpoints. */
module ConstantsInternal {
  import opened Wrappers
  import opened ConstantsShared

  /** `STATUS_TO_MESSAGE_MAP`: the human-readable message for each status code. */
  const StatusToMessage: map<int, string> := map[
    21000 := "The App Store could not read the JSON object you provided.",
    21002 := "The data in the receipt-data property was malformed.",
    21003 := "The receipt could not be authenticated.",
    21004 := "The shared secret you provided does not match the shared secret on file for your account.",
    21005 := "The receipt server is not currently available.",
    21006 := "This receipt is valid but the subscription has expired. When this status code is returned to your server, the receipt data is also decoded and returned as part of the response.",
    21007 := "This receipt is a sandbox receipt, but it was sent to the production service for verification.",
    21008 := "This receipt is a production receipt, but it was sent to the sandbox service for verification.",
    21009 := "Internal data access error. Try again later",
    21010 := "The user account cannot be found or has been deleted",
    2 := "The receipt is valid, but purchased nothing.",
    0 := "No error."
  ]

  /** `PROD_PATH` and `SANDBOX_PATH`. */
  const ProdPath: string := "https://buy.itunes.apple.com/verifyReceipt"
  const SandboxPath: string := "https://sandbox.itunes.apple.com/verifyReceipt"

  /** The table is keyed by exactly the enum's values, and every message is
      a non-empty (so truthy) string. */
  lemma StatusTableDomain(c: int)
    ensures c in StatusToMessage <==> FromCode(c).Some?
    ensures c in StatusToMessage ==> StatusToMessage[c] != ""
  {
  }

  lemma StatusTableMessages()
    ensures StatusToMessage[Code(DataMalformed)] == "The data in the receipt-data property was malformed."
    ensures StatusToMessage[Code(Success)] == "No error."
    ensures StatusToMessage[Code(ValidNoPurchase)] == "The receipt is valid, but purchased nothing."
    ensures StatusToMessage[Code(SubscriptionExpired)] == "This receipt is valid but the subscription has expired. When this status code is returned to your server, the receipt data is also decoded and returned as part of the response."
    ensures StatusToMessage[Code(TestEnvReceiptDetected)] == "This receipt is a sandbox receipt, but it was sent to the production service for verification."
  {
  }

  lemma EndpointsDistinct()
    ensures ProdPath != SandboxPath
  {
    assert ProdPath[8] != SandboxPath[8];
  }
}
