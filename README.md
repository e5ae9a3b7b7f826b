# iap-apple in Dafny

A model of the core of `iap-apple`, a small Node.js library that validates
App Store receipts against Apple's `verifyReceipt` service. It covers:

- the fallback between the production and sandbox endpoints;
- how each Apple status code settles an attempt;
- the status-code enumeration and its message table;
- the normalisation of a wire record into a purchased item;
- the expiry and cancellation checks;
- the reconciliation of a receipt into one item per subscription lineage. The lineage is the
  original transaction id, and the kept item is the latest record of that lineage.

Modules follow the source files:

| Dafny module | file | what |
|---|---|---|
| `ConstantsShared` | `constants_shared.dfy` | `RECEIPT_STATUS_ENUM` as a datatype with its numeric codes |
| `ConstantsInternal` | `constants_internal.dfy` | `STATUS_TO_MESSAGE_MAP`, `PROD_PATH`, `SANDBOX_PATH` |
| `LibInternal` | `lib_internal.dfy` | `isExpiredAppleResponse`, `getPurchaseItem`, `validateReceipt` |
| `LibShared` | `lib_shared.dfy` | `validate`, `isValidated`, `isExpired`, `isCanceled`, `getPurchaseData` |
| `PurchaseOrder` | `purchase_order.dfy` | reference definitions: the stable descending sort and the keep-first-per-lineage pass, with their lemmas |
| `JsNumbers` | `js_numbers.dfy` | `parseInt(s, 10)`, JavaScript truthiness of numbers |
| `Promises` | `promises.dfy` | a promise settles once; later `resolve`/`reject` calls are ignored |
| `ReceiptTypes`, `Wrappers` | `receipt_types.dfy`, `wrappers.dfy` | the wire and result records; `Option`, `Result` |

Modelling choices:

- `Date.now()` is a parameter `now`.
- The HTTP round trip (`sendRequest`) is a parameter `send: Request -> Transport`. It either answers with a response body or fails with an error message.
- A JavaScript number is `Int(v)` or `NaN`.
- An absent (`undefined`) field is `None`.
- A thrown error is an `Err` result.
- `getPurchaseData` keeps its source form as an imperative method. The merged list is copied into an array and sorted in place. A loop then walks it with a `transactionIds` dictionary. The method is proved equal to the reference function `PurchaseData`, and the reconciliation lemmas are stated about that function.

## Model

| member | source | states |
|---|---|---|
| ConstantsShared.FromCode | src/constants/shared/index.ts:1-27 | a code names a status exactly when some enum member has that code, and then it is the member with that code |
| ConstantsShared.CodeRoundTrip | src/constants/shared/index.ts:1-27 | every enum member's code maps back to that member |
| ConstantsShared.CodesDistinct | src/constants/shared/index.ts:1-27 | no two enum members share a code |
| ConstantsShared.EnumerationComplete | src/constants/shared/index.ts:1-27 | there are exactly twelve members, with codes 0, 2, 21000 and 21002-21010, pairwise distinct; 21001 is not a status |
| ConstantsInternal.StatusTableDomain | src/constants/internal/index.ts:3-16 | the message table has an entry exactly for the twelve enum codes, and every message is non-empty |
| ConstantsInternal.StatusTableMessages | src/constants/internal/index.ts:3-16 | the messages of 0, 2, 21002, 21006 and 21007 are the documented strings |
| ConstantsInternal.EndpointsDistinct | src/constants/internal/index.ts:18-19 | the production and sandbox endpoint URLs differ |
| JsNumbers.ParseInt | src/lib/internal/index.ts:43-53 | `parseInt(s, 10)` gives a number exactly when a digit comes first, or right after a leading `-` or `+`, and the number is negative only after a `-` |
| JsNumbers.ParseIntDecimal | src/lib/internal/index.ts:43-53 | `parseInt(s, 10)` reads back the integer of its decimal rendering, with or without a minus sign, ignoring what follows the digits |
| JsNumbers.ParseIntOfDecimal | src/lib/internal/index.ts:43-53 | `parseInt(s, 10)` of a natural number's decimal rendering gives that number back |
| JsNumbers.ParseIntEmptyIsNaN | src/lib/internal/index.ts:43-53 | `parseInt("", 10)` is NaN |
| JsNumbers.LeadingDigitsMaximal | src/lib/internal/index.ts:43-53 | the digit prefix `parseInt` reads is all digits and stops at the first non-digit |
| LibInternal.MathMax | src/lib/internal/index.ts:6-9 | `Math.max` is NaN exactly when some argument is NaN, -Infinity exactly on no arguments, and otherwise an argument that bounds all the others |
| LibInternal.IsExpiredAppleResponse | src/lib/internal/index.ts:5-15 | true exactly when `latest_receipt_info` is present, every expiry parses, and some expiry lies after `now` (a maximum of 0 counts as an old receipt) |
| LibInternal.GetPurchaseItem | src/lib/internal/index.ts:41-55 | field by field: trial iff the flag is exactly "true"; expiration and cancellation absent iff the field is missing or empty, parsed otherwise; ids, product and bundle copied unchanged; the numeric fields parsed |
| LibInternal.GetPurchaseItemReadsDecimals | src/lib/internal/index.ts:43-53 | a record whose numeric fields are decimal integers yields an item carrying exactly those integers |
| LibInternal.RequestContent | src/lib/internal/index.ts:71-75 | the request body holds the receipt and the exclude flag, and holds a password key exactly when a password is given |
| LibInternal.RequestContentInjective | src/lib/internal/index.ts:71-75 | different receipts, passwords or flags give different request bodies |
| LibInternal.MessageFor | src/lib/internal/index.ts:103 | the table's message for a known status, "Unknown" for any other |
| LibInternal.ValidateReceipt | src/lib/internal/index.ts:57-132 | the attempt always settles. A transport error rejects with its message and no data. Status 0 fulfils with the body. 21007 alone fulfils with null. 21002 rejects with the malformed message. 21006 for which `isExpiredAppleResponse` is false fulfils with the status forced to 0; this includes a missing top-level `latest_receipt_info` and an expiry that does not parse. Every other status rejects with its message and the body |
| LibShared.Validate | src/lib/shared/index.ts:5-66 | production is tried first unless in test mode; the sandbox only in test mode or after a null from production. A rejection of the attempt that decides is passed on unchanged; a null from it rejects with "Unable to validate…" and no data; a body with an empty `in_app` list rejects with "purchase list is empty"; otherwise it fulfils with the body. A fulfilled body always has status 0, passes `isValidated`, and has a non-empty or absent purchase list |
| LibShared.IsValidated | src/lib/shared/index.ts:68-70 | true exactly for a present response whose status code names the `SUCCESS` member of the enumeration |
| LibShared.ValidateReceiptIsValidated | src/lib/shared/index.ts:68-70 | every body with which a `validateReceipt` attempt fulfils passes `isValidated`; `Validate` states the same of its own fulfilled body |
| LibShared.IsExpired | src/lib/shared/index.ts:72-90 | errors exactly on a missing item or transaction id. Otherwise it is expired iff it carries a cancellation date, or it has an expiration date and `now` has reached it |
| LibShared.IsCanceled | src/lib/shared/index.ts:92-97 | errors on the same inputs as `isExpired`; otherwise true exactly when a cancellation date is present |
| LibShared.CanceledIsExpired | src/lib/shared/index.ts:72-97 | a cancelled item is expired at every time |
| LibShared.ExpiryIsPermanent | src/lib/shared/index.ts:72-90 | once expired, an item stays expired at every later time |
| LibShared.ShiftLessRecent | src/lib/shared/index.ts:115-117 | the records before position `i` that are less recent than the one being inserted move one place right and nothing else changes; the gap left is just after the last record at least as recent |
| LibShared.InsertLast | src/lib/shared/index.ts:115-117 | one in-place insertion step moves the next record to its stable place among the already sorted prefix, leaving the rest of the array unchanged |
| LibShared.SortByPurchaseDateDesc | src/lib/shared/index.ts:115-117 | the array afterwards holds the stable most-recent-first sort of its old contents |
| LibShared.KeepFirstStep | src/lib/shared/index.ts:120-130 | one step of the walk: the seen lineages grow by the record's lineage, and the kept list grows by the record exactly when its lineage had not been seen |
| LibShared.MarkStep | src/lib/shared/index.ts:119-130 | the dictionary test `transactionIds[tid]` is true exactly when the lineage was seen before, and after skipping or marking, the dictionary holds exactly the seen lineages, each marked `true` |
| LibShared.KeepFirstPerLineage | src/lib/shared/index.ts:119-131 | the dictionary-driven loop returns the items of the first record of each lineage, in order |
| LibShared.GetPurchaseData | src/lib/shared/index.ts:99-132 | returns nothing without a response or receipt, otherwise exactly `PurchaseData` |
| LibShared.ReconciledIsLatestPerLineage | src/lib/shared/index.ts:104-131 | the kept records are sorted most recent first, and there is one per lineage with every lineage of the merged list present. Each comes from the merged list and is the latest of its lineage. Among equally recent records of a lineage, the one kept is met first in the merged list |
| LibShared.PurchaseDataLatestPerLineage | src/lib/shared/index.ts:99-132 | the items' purchase times parse and do not increase. Original transaction ids are distinct and are exactly those of the merged list. Each item carries its lineage's latest purchase time |
| LibShared.MergedPurchases | src/lib/shared/index.ts:105-109 | the working list is `in_app` (or nothing) followed by the renewal list. The renewal list is the top-level `latest_receipt_info` whenever present, even when empty, otherwise the receipt's own, otherwise nothing |
| LibShared.PurchaseTime | src/lib/shared/index.ts:115-117 | the sort key is the parsed `purchase_date_ms` when it parses, and 0 otherwise |
| LibShared.PurchaseTimeOfDecimal | src/lib/shared/index.ts:115-117 | a decimal purchase date gives exactly that number as the sort key |
| LibShared.ReconciledSources | src/lib/shared/index.ts:105-109 | every kept record is a record of `in_app` or of the chosen renewal list. That list is the top-level `latest_receipt_info` whenever present, even when empty, and otherwise the receipt's own |
| LibShared.PurchaseDataSources | src/lib/shared/index.ts:99-132 | there is one item per kept record, and each item is the normalised form of the kept record at its position, a record of `in_app` or of the chosen renewal list |
| LibShared.SingleLineageYieldsOneItem | src/lib/shared/index.ts:99-132 | a receipt whose records all share one original transaction id yields exactly one item, with the most recent purchase time |
| LibShared.FirstPerLineageAsWritten | src/lib/shared/index.ts:119-130 | the walk as written keeps only records of its input whose lineage is not an inherited property name, and the lineages it covers are exactly the input's lineages minus those names |
| LibShared.AsWrittenDropsPrototypeNamedLineage | src/lib/shared/index.ts:119-126 | as written, a single record of lineage "constructor" yields no item, although its lineage is present; the corrected pass keeps it |
| LibShared.AsWrittenAgreesOffPrototypeNames | src/lib/shared/index.ts:119-130 | away from inherited property names, the walk as written equals the corrected pass |
| PurchaseOrder.FirstPerLineage | src/lib/shared/index.ts:119-130 | keeps only records of the input, one per lineage, with every lineage of the input present |
| PurchaseOrder.First | src/lib/shared/index.ts:120-126 | the record found belongs to the input and to the lineage asked for |
| PurchaseOrder.FirstIsEarliest | src/lib/shared/index.ts:120-126 | the record `First` finds sits at a position of the input before which no record has that lineage |
| PurchaseOrder.InsertPermutes | src/lib/shared/index.ts:115-117 | a stable insertion adds exactly the inserted record |
| PurchaseOrder.InsertSorted | src/lib/shared/index.ts:115-117 | inserting into a most-recent-first list keeps it so |
| PurchaseOrder.InsertStable | src/lib/shared/index.ts:115-117 | the records of any one purchase time keep their relative order after an insertion, with the inserted record last |
| PurchaseOrder.InsertAt | src/lib/shared/index.ts:115-117 | the insertion lands right after the records at least as recent as it, where the in-place loop stops |
| PurchaseOrder.SortDescSorted | src/lib/shared/index.ts:115-117 | the sort orders records most recent first |
| PurchaseOrder.SortDescPermutes | src/lib/shared/index.ts:115-117 | the sort is a permutation of its input |
| PurchaseOrder.SortDescStable | src/lib/shared/index.ts:115-117 | records with equal purchase times keep their input order |
| PurchaseOrder.WithKeyConcat | src/lib/shared/index.ts:115-117 | selecting the records of one purchase time distributes over concatenation |
| PurchaseOrder.WithKeyMembers | src/lib/shared/index.ts:115-117 | the selection holds exactly the input's records of that purchase time |
| PurchaseOrder.LineageIdsConcat | src/lib/shared/index.ts:119-130 | the lineages of a concatenation are those of its parts |
| PurchaseOrder.FirstOfPrefix | src/lib/shared/index.ts:120-126 | a lineage's first record in a prefix stays its first record after appending |
| PurchaseOrder.FirstAfterPrefix | src/lib/shared/index.ts:120-126 | a lineage absent from a prefix has its first record in the rest |
| PurchaseOrder.FirstPerLineageKeepsFirst | src/lib/shared/index.ts:119-130 | every kept record is the first of its lineage in the input |
| PurchaseOrder.FirstPerLineageSorted | src/lib/shared/index.ts:119-130 | keeping the first of each lineage preserves the most-recent-first order |
| PurchaseOrder.FirstIsLatest | src/lib/shared/index.ts:115-126 | in a most-recent-first list, a lineage's first record is its latest |
| PurchaseOrder.FirstAmongLatest | src/lib/shared/index.ts:115-126 | in a most-recent-first list, a lineage's first record is also its first among the records sharing the lineage's latest time |

## Left out

- `sendRequest` (lines 17-39 of src/lib/internal/index.ts), the HTTP round trip, is the parameter `send`, and JSON decoding of the answer is not modelled.
- A reply with a 2xx status other than 200 and no error object makes `sendRequest` reject with `undefined`. Reading `error.message` then throws inside the handler and the attempt never settles. The model's transport failure always carries a message, so this hang is not modelled.
- Logging (`logger.log`, `logger.error`) has no effect on results and is left out.
- LibShared.GetPurchaseData: it requires every purchase date of the merged list to parse. With a NaN date the comparator returns NaN and `Array.prototype.sort` gives an order the language leaves to the implementation. `PurchaseData` puts such records at time 0 only to stay total.
- LibShared.SortByPurchaseDateDesc: it is an insertion sort. The engine's sort algorithm is not modelled, only its stable result.
- LibShared.GetPurchaseData: it sorts a fresh copy. When `latest_receipt_info` is absent at both levels, the source sorts `receipt.in_app` itself in place, and the caller's receipt is reordered as a side effect. That aliasing is not modelled.
- LibShared.Validate: it uses one `now` for both attempts, where the source reads the clock separately in each attempt.
- `now` is a natural number. Clock values before 1970 are not modelled.
- `parseInt` skips leading whitespace. The model reads an optional sign and then the digits directly. Apple's fields are plain digit strings.
- JavaScript numbers are IEEE doubles. The model uses unbounded integers, so precision loss above 2^53 is not modelled.
- LibShared.IsValidated: it returns `false` for a missing response, where the source returns the falsy value itself (`undefined` or `null`).
- The final rejection of `validate` with the status message (lines 60-64 of src/lib/shared/index.ts) cannot be reached. `validateReceipt` fulfils only with status-0 bodies or null, so the model marks that branch impossible instead of modelling it.
- `ValidateReceipt`'s second `reject(error)` after a transport error is modelled. It has no effect, because the first rejection settles the promise.
- Receipt fields that the core never reads are not part of the wire records. This covers the date strings, `web_order_line_item_id`, the intro-offer flag and the other receipt fields.
- The two getPurchaseData tests with concrete receipts are not restated with their literal data. Their claims are proved for all inputs by `SingleLineageYieldsOneItem` and `PurchaseDataSources`.

## Findings

| source | as written | input that shows it | evidently intended | confidence | as-written member | corrected member |
|---|---|---|---|---|---|---|
| src/lib/shared/index.ts:119-126 | `transactionIds` is a plain `{}`, so `transactionIds[tid]` is truthy for names inherited from `Object.prototype` | one record whose `original_transaction_id` is `"constructor"` (or `"toString"`, `"__proto__"`, …): no item is returned for its lineage | every lineage present yields exactly one item, whatever its id | low impact, since Apple issues numeric ids; not executed | LibShared.FirstPerLineageAsWritten, LibShared.AsWrittenDropsPrototypeNamedLineage | PurchaseOrder.FirstPerLineage, LibShared.KeepFirstPerLineage |
