/** The App Store's receipt status codes (`RECEIPT_STATUS_ENUM`). */
module ConstantsShared {
  import opened Wrappers

  datatype ReceiptStatus =
    | Success
    | ValidNoPurchase
    | CannotReadJson
    | DataMalformed
    | ReceiptNotAuthenticated
    | SharedSecretDoesntMatch
    | ServerNotAvailable
    | SubscriptionExpired
    | TestEnvReceiptDetected
    | ProductionEnvReceiptDetected
    | InternalDataAccessError
    | UserAccountDeleted

  /** The numeric value of each enum member. */
  function Code(s: ReceiptStatus): int {
    match s
    case Success => 0
    case ValidNoPurchase => 2
    case CannotReadJson => 21000
    case DataMalformed => 21002
    case ReceiptNotAuthenticated => 21003
    case SharedSecretDoesntMatch => 21004
    case ServerNotAvailable => 21005
    case SubscriptionExpired => 21006
    case TestEnvReceiptDetected => 21007
    case ProductionEnvReceiptDetected => 21008
    case InternalDataAccessError => 21009
    case UserAccountDeleted => 21010
  }

  /** Every member, in declaration order. */
  const AllStatuses: seq<ReceiptStatus> := [
    Success, ValidNoPurchase, CannotReadJson, DataMalformed,
    ReceiptNotAuthenticated, SharedSecretDoesntMatch, ServerNotAvailable,
    SubscriptionExpired, TestEnvReceiptDetected, ProductionEnvReceiptDetected,
    InternalDataAccessError, UserAccountDeleted
  ]

  /** The reverse mapping of a TypeScript numeric enum: the member with a
      given value, if any. */
  function FromCode(c: int): (r: Option<ReceiptStatus>)
    ensures r.Some? ==> Code(r.value) == c
    ensures r.None? <==> forall s :: Code(s) != c
  {
    if c == 0 then Some(Success)
    else if c == 2 then Some(ValidNoPurchase)
    else if c == 21000 then Some(CannotReadJson)
    else if c == 21002 then Some(DataMalformed)
    else if c == 21003 then Some(ReceiptNotAuthenticated)
    else if c == 21004 then Some(SharedSecretDoesntMatch)
    else if c == 21005 then Some(ServerNotAvailable)
    else if c == 21006 then Some(SubscriptionExpired)
    else if c == 21007 then Some(TestEnvReceiptDetected)
    else if c == 21008 then Some(ProductionEnvReceiptDetected)
    else if c == 21009 then Some(InternalDataAccessError)
    else if c == 21010 then Some(UserAccountDeleted)
    else None
  }

  /** Looking a member up by its value gives the member back, so the values
      are pairwise distinct. */
  lemma CodeRoundTrip(s: ReceiptStatus)
    ensures FromCode(Code(s)) == Some(s)
  {
  }

  lemma CodesDistinct(s: ReceiptStatus, t: ReceiptStatus)
    ensures Code(s) == Code(t) ==> s == t
  {
    CodeRoundTrip(s);
    CodeRoundTrip(t);
  }

  /** The enum has exactly twelve members, with the documented values;
      21001 is not one of them. */
  lemma EnumerationComplete()
    ensures |AllStatuses| == 12
    ensures forall s :: s in AllStatuses
    ensures forall i, j :: 0 <= i < j < |AllStatuses| ==> Code(AllStatuses[i]) != Code(AllStatuses[j])
    ensures FromCode(21001) == None
    ensures Code(Success) == 0 && Code(DataMalformed) == 21002 && Code(SubscriptionExpired) == 21006
    ensures Code(TestEnvReceiptDetected) == 21007 && Code(ProductionEnvReceiptDetected) == 21008
  {
    forall s: ReceiptStatus ensures s in AllStatuses {
      match s
      case Success => assert AllStatuses[0] == s;
      case ValidNoPurchase => assert AllStatuses[1] == s;
      case CannotReadJson => assert AllStatuses[2] == s;
      case DataMalformed => assert AllStatuses[3] == s;
      case ReceiptNotAuthenticated => assert AllStatuses[4] == s;
      case SharedSecretDoesntMatch => assert AllStatuses[5] == s;
      case ServerNotAvailable => assert AllStatuses[6] == s;
      case SubscriptionExpired => assert AllStatuses[7] == s;
      case TestEnvReceiptDetected => assert AllStatuses[8] == s;
      case ProductionEnvReceiptDetected => assert AllStatuses[9] == s;
      case InternalDataAccessError => assert AllStatuses[10] == s;
      case UserAccountDeleted => assert AllStatuses[11] == s;
    }
  }
}
