/** The public entry points: `validate` (endpoint fallback and the
    empty-purchase rule), `isValidated`, `isExpired`, `isCanceled` and
    `getPurchaseData` (merge, sort, keep the latest record per lineage). */
module LibShared {
  import opened Wrappers
  import opened JsNumbers
  import opened Promises
  import opened ConstantsShared
  import opened ConstantsInternal
  import opened ReceiptTypes
  import opened LibInternal
  import opened PurchaseOrder

  /** `IIAPAppleConfig`; a missing flag reads as false (`Boolean(undefined)`,
      `!undefined`). The logger only logs and is left out. */
  datatype Config = Config(applePassword: Option<string>, appleExcludeOldTransactions: bool, test: bool)

  const UnableToValidateMessage: string := "Unable to validate receipt using appstore endpoints."
  const EmptyPurchaseListMessage: string := "Detected valid receipt, however purchase list is empty"
  const InvalidItemMessage: string := "Detected invalid purchased item! Make sure object is defined and it has transaction id."

  /** The receipt has an `in_app` array and it is empty (an absent array
      does not count). */
  predicate EmptyPurchaseList(d: ResponseBody) {
    d.receipt.Some? && d.receipt.value.in_app.Some? && |d.receipt.value.in_app.value| == 0
  }

  /** `validate`: production first unless `config.test`, the sandbox when
      that attempt fulfilled with `null` (or in test mode), then the
      empty-purchase rule on the body obtained. `endpoints` lists the
      endpoints queried, in order. */
  method Validate(receipt: string, config: Config, send: Request -> Transport, now: nat)
    returns (p: Promise<ResponseBody, Rejection>, endpoints: seq<string>)
    ensures var prod := ValidateReceipt(ProdPath, receipt, config.applePassword, config.appleExcludeOldTransactions, send, now);
            var sandbox := ValidateReceipt(SandboxPath, receipt, config.applePassword, config.appleExcludeOldTransactions, send, now);
            var usesSandbox := config.test || prod == Fulfilled(None);
            var decisive := if usesSandbox then sandbox else prod;
            && endpoints == (if config.test then [SandboxPath] else if usesSandbox then [ProdPath, SandboxPath] else [ProdPath])
            && (decisive.Rejected? ==> p == Rejected(decisive.reason))
            && (decisive == Fulfilled(None) ==> p == Rejected(AppleError(UnableToValidateMessage, None)))
            && (decisive.Fulfilled? && decisive.value.Some? ==>
                  var d := decisive.value.value;
                  p == if EmptyPurchaseList(d) then Rejected(AppleError(EmptyPurchaseListMessage, Some(d))) else Fulfilled(d))
    ensures !p.Pending?
    ensures p.Fulfilled? ==> p.value.status == Code(Success) && !EmptyPurchaseList(p.value)
    ensures p.Fulfilled? ==> IsValidated(Some(p.value))
    ensures p.Rejected? ==> p.reason.AppleError?
  {
    p := Pending;
    endpoints := [];
    var validatedData: Option<ResponseBody> := None;
    var password, exclude := config.applePassword, config.appleExcludeOldTransactions;
    if !config.test {
      var attempt := ValidateReceipt(ProdPath, receipt, password, exclude, send, now);
      endpoints := endpoints + [ProdPath];
      if attempt.Rejected? {
        // the awaited rejection is caught and passed on unchanged
        p := Reject(p, attempt.reason);
        return;
      }
      validatedData := attempt.value;
    }
    if validatedData.None? {
      var attempt := ValidateReceipt(SandboxPath, receipt, password, exclude, send, now);
      endpoints := endpoints + [SandboxPath];
      if attempt.Rejected? {
        p := Reject(p, attempt.reason);
        return;
      }
      validatedData := attempt.value;
    }
    if validatedData.None? {
      p := Reject(p, AppleError(UnableToValidateMessage, None));
      return;
    }
    var data := validatedData.value;
    if data.status == Code(Success) {
      if EmptyPurchaseList(data) {
        p := Reject(p, AppleError(EmptyPurchaseListMessage, Some(data)));
      }
      // the later resolve is ignored when the promise was just rejected
      p := Resolve(p, data);
      return;
    }
    // The final rejection with the status message is unreachable:
    // `ValidateReceipt` fulfils only with bodies of status 0.
    assert false;
  }

  /** `isValidated`: a response that Apple marked valid. */
  function IsValidated(response: Option<ResponseBody>): (r: bool)
    ensures r <==> response.Some? && FromCode(response.value.status) == Some(Success)
  {
    response.Some? && response.value.status == Code(Success)
  }

  /** A body with which one `validateReceipt` attempt fulfils passes
      `isValidated`. */
  lemma ValidateReceiptIsValidated(endpoint: string, receipt: string, password: Option<string>,
                                   excludeOldTransactions: bool, send: Request -> Transport, now: nat)
    ensures var attempt := ValidateReceipt(endpoint, receipt, password, excludeOldTransactions, send, now);
      attempt.Fulfilled? && attempt.value.Some? ==> IsValidated(attempt.value)
  {
    CodeRoundTrip(Success);
  }

  /** The argument check shared by `isExpired` and `isCanceled`. */
  predicate ValidItem(item: Option<PurchasedItem>) {
    item.Some? && item.value.transactionId != ""
  }

  /** A cancellation date is present and truthy (not 0, not NaN). */
  predicate Cancelled(item: PurchasedItem) {
    item.cancellationDateMS.Some? && Truthy(item.cancellationDateMS.value)
  }

  /** An expiration date is present and truthy. */
  predicate HasExpiration(item: PurchasedItem) {
    item.expirationDateMS.Some? && Truthy(item.expirationDateMS.value)
  }

  /** `isExpired`: throws on a missing item or transaction id; otherwise a
      cancelled item is expired, an item without expiration never is, and
      any other item is expired from its expiration time on. */
  function IsExpired(item: Option<PurchasedItem>, now: nat): (r: Result<bool, string>)
    ensures r.Err? <==> !ValidItem(item)
    ensures r.Err? ==> r.error == InvalidItemMessage
    ensures r.Ok? ==>
      (r.value <==> (Cancelled(item.value) || (HasExpiration(item.value) && now >= item.value.expirationDateMS.value.value)))
  {
    if !ValidItem(item) then Err(InvalidItemMessage)
    else if Cancelled(item.value) then Ok(true)
    else if !HasExpiration(item.value) then Ok(false)
    else if now - item.value.expirationDateMS.value.value >= 0 then Ok(true)
    else Ok(false)
  }

  /** `isCanceled`: throws like `isExpired`, otherwise tells whether a
      truthy cancellation date is present. */
  function IsCanceled(item: Option<PurchasedItem>): (r: Result<bool, string>)
    ensures r.Err? <==> !ValidItem(item)
    ensures r.Err? ==> r.error == InvalidItemMessage
    ensures r.Ok? ==> (r.value <==> Cancelled(item.value))
  {
    if !ValidItem(item) then Err(InvalidItemMessage) else Ok(Cancelled(item.value))
  }

  /** A cancelled item is expired at every time. */
  lemma CanceledIsExpired(item: Option<PurchasedItem>, now: nat)
    requires IsCanceled(item) == Ok(true)
    ensures IsExpired(item, now) == Ok(true)
  {
  }

  /** Once expired, an item stays expired. */
  lemma ExpiryIsPermanent(item: Option<PurchasedItem>, now: nat, later: nat)
    requires now <= later && IsExpired(item, now) == Ok(true)
    ensures IsExpired(item, later) == Ok(true)
  {
  }

  /** The sort key: `parseInt(purchase_date_ms, 10)`. A date that does not
      parse would make the comparator return NaN; `GetPurchaseData`
      requires every date to parse, and 0 only makes the key total. */
  function PurchaseTime(r: InAppRecord): (t: int)
    ensures ParseInt(r.purchase_date_ms).Int? ==> ParseInt(r.purchase_date_ms) == Int(t)
    ensures ParseInt(r.purchase_date_ms).NaN? ==> t == 0
  {
    match ParseInt(r.purchase_date_ms)
    case Int(v) => v
    case NaN => 0
  }

  /** A decimal purchase date is read back as its number. */
  lemma PurchaseTimeOfDecimal(r: InAppRecord, n: nat)
    requires r.purchase_date_ms == DecimalString(n)
    ensures PurchaseTime(r) == n
  {
    ParseIntOfDecimal(n);
  }

  predicate AllDated(s: seq<InAppRecord>) {
    forall i :: 0 <= i < |s| ==> ParseInt(s[i].purchase_date_ms).Int?
  }

  /** The working list: `in_app` (or nothing), then the top-level
      `latest_receipt_info` when present, even empty, and otherwise the
      receipt's own `latest_receipt_info` when present. */
  function MergedPurchases(purchase: ResponseBody): (m: seq<InAppRecord>)
    requires purchase.receipt.Some?
    ensures var inApp := purchase.receipt.value.in_app.GetOr([]);
      var renewals := if purchase.latest_receipt_info.Some? then purchase.latest_receipt_info.value
                      else purchase.receipt.value.latest_receipt_info.GetOr([]);
      && |m| == |inApp| + |renewals|
      && m[..|inApp|] == inApp
      && m[|inApp|..] == renewals
  {
    var inApp := purchase.receipt.value.in_app.GetOr([]);
    var lri := if purchase.latest_receipt_info.Some? then purchase.latest_receipt_info
               else purchase.receipt.value.latest_receipt_info;
    if lri.Some? then inApp + lri.value else inApp
  }

  function Items(rs: seq<InAppRecord>, purchase: ResponseBody): (items: seq<PurchasedItem>)
    requires purchase.receipt.Some?
    ensures |items| == |rs|
    ensures forall i :: 0 <= i < |rs| ==> items[i] == GetPurchaseItem(rs[i], purchase)
  {
    seq(|rs|, i requires 0 <= i < |rs| => GetPurchaseItem(rs[i], purchase))
  }

  /** The records `getPurchaseData` turns into items: the merged list
      sorted most recent first, then the first record of each lineage. */
  function Reconciled(purchase: ResponseBody): seq<InAppRecord>
    requires purchase.receipt.Some?
  {
    FirstPerLineage(SortDesc(MergedPurchases(purchase), PurchaseTime))
  }

  /** What `getPurchaseData` returns. */
  function PurchaseData(purchase: Option<ResponseBody>): seq<PurchasedItem> {
    if purchase.None? || purchase.value.receipt.None? then []
    else Items(Reconciled(purchase.value), purchase.value)
  }

  /** The reconciled records, against the merged list they come from: most
      recent first, one per lineage and every lineage present, each taken
      from the merged list, each the latest of its lineage, and among
      equally recent records of a lineage the one met first in the merged
      list. */
  lemma ReconciledIsLatestPerLineage(purchase: ResponseBody)
    requires purchase.receipt.Some?
    ensures var m, rec := MergedPurchases(purchase), Reconciled(purchase);
      && SortedDesc(rec, PurchaseTime)
      && (forall i, j :: 0 <= i < j < |rec| ==> rec[i].original_transaction_id != rec[j].original_transaction_id)
      && LineageIds(rec) == LineageIds(m)
      && (forall i :: 0 <= i < |rec| ==> rec[i] in m)
      && (forall i, r :: 0 <= i < |rec| && r in m && r.original_transaction_id == rec[i].original_transaction_id
            ==> PurchaseTime(r) <= PurchaseTime(rec[i]))
      && (forall i :: 0 <= i < |rec| ==>
            var id, k := rec[i].original_transaction_id, PurchaseTime(rec[i]);
            id in LineageIds(WithKey(m, k, PurchaseTime)) && rec[i] == First(WithKey(m, k, PurchaseTime), id))
  {
    var m := MergedPurchases(purchase);
    var sorted := SortDesc(m, PurchaseTime);
    var rec := FirstPerLineage(sorted);
    SortDescSorted(m, PurchaseTime);
    SortDescPermutes(m, PurchaseTime);
    FirstPerLineageSorted(sorted, PurchaseTime);
    FirstPerLineageKeepsFirst(sorted);
    assert forall r :: r in sorted <==> r in m by {
      forall r ensures r in sorted <==> r in m {
        assert r in sorted <==> r in multiset(sorted);
      }
    }
    assert LineageIds(sorted) == LineageIds(m);
    forall i | 0 <= i < |rec|
      ensures forall r :: r in m && r.original_transaction_id == rec[i].original_transaction_id
                ==> PurchaseTime(r) <= PurchaseTime(rec[i])
      ensures var id, k := rec[i].original_transaction_id, PurchaseTime(rec[i]);
              id in LineageIds(WithKey(m, k, PurchaseTime)) && rec[i] == First(WithKey(m, k, PurchaseTime), id)
    {
      var id, k := rec[i].original_transaction_id, PurchaseTime(rec[i]);
      assert rec[i] == First(sorted, id);
      FirstIsLatest(sorted, id, PurchaseTime);
      FirstAmongLatest(sorted, id, k, PurchaseTime);
      SortDescStable(m, k, PurchaseTime);
    }
  }

  /** The items of `getPurchaseData`, as the caller sees them: their
      purchase times parse and run from most to least recent, there is one
      item per original transaction id of the merged list and no other, and
      each carries the latest purchase time of its lineage. */
  lemma PurchaseDataLatestPerLineage(purchase: ResponseBody)
    requires purchase.receipt.Some? && AllDated(MergedPurchases(purchase))
    ensures var items, m := PurchaseData(Some(purchase)), MergedPurchases(purchase);
      && (forall i :: 0 <= i < |items| ==> items[i].purchaseDateMS.Int?)
      && (forall i, j :: 0 <= i < j < |items| ==> items[i].purchaseDateMS.value >= items[j].purchaseDateMS.value)
      && (forall i, j :: 0 <= i < j < |items| ==> items[i].originalTransactionId != items[j].originalTransactionId)
      && (set i | 0 <= i < |items| :: items[i].originalTransactionId) == LineageIds(m)
      && (forall i, r :: 0 <= i < |items| && r in m && r.original_transaction_id == items[i].originalTransactionId
            ==> ParseInt(r.purchase_date_ms) == Int(PurchaseTime(r)) && PurchaseTime(r) <= items[i].purchaseDateMS.value)
  {
    var m, rec := MergedPurchases(purchase), Reconciled(purchase);
    var items := PurchaseData(Some(purchase));
    ReconciledIsLatestPerLineage(purchase);
    forall i | 0 <= i < |rec| ensures items[i].purchaseDateMS == Int(PurchaseTime(rec[i])) {
      var n :| 0 <= n < |m| && m[n] == rec[i];
    }
    forall r | r in m ensures ParseInt(r.purchase_date_ms) == Int(PurchaseTime(r)) {
      var n :| 0 <= n < |m| && m[n] == r;
    }
    forall i | 0 <= i < |rec| ensures items[i].originalTransactionId == rec[i].original_transaction_id {
    }
    assert (set i | 0 <= i < |items| :: items[i].originalTransactionId) == LineageIds(rec) by {
      forall id | id in LineageIds(rec) ensures id in (set i | 0 <= i < |items| :: items[i].originalTransactionId) {
        var r :| r in rec && r.original_transaction_id == id;
        var i :| 0 <= i < |rec| && rec[i] == r;
        assert items[i].originalTransactionId == id;
      }
    }
  }

  /** Every reconciled record comes from `in_app` or from the renewal list
      chosen for the merge: the top-level `latest_receipt_info` whenever it
      is present, even empty, and the receipt's own one only otherwise. */
  lemma ReconciledSources(purchase: ResponseBody)
    requires purchase.receipt.Some?
    ensures var inApp := purchase.receipt.value.in_app.GetOr([]);
      var renewals := if purchase.latest_receipt_info.Some? then purchase.latest_receipt_info.value
                      else purchase.receipt.value.latest_receipt_info.GetOr([]);
      var rec := Reconciled(purchase);
      forall i :: 0 <= i < |rec| ==> rec[i] in inApp || rec[i] in renewals
  {
    var inApp := purchase.receipt.value.in_app.GetOr([]);
    var renewals := if purchase.latest_receipt_info.Some? then purchase.latest_receipt_info.value
                    else purchase.receipt.value.latest_receipt_info.GetOr([]);
    var m := MergedPurchases(purchase);
    assert m == inApp + renewals;
    var sorted := SortDesc(m, PurchaseTime);
    var rec := FirstPerLineage(sorted);
    SortDescPermutes(m, PurchaseTime);
    forall i | 0 <= i < |rec| ensures rec[i] in inApp || rec[i] in renewals {
      assert rec[i] in sorted;
      assert rec[i] in multiset(sorted);
    }
  }

  /** Every item is the normalised form of the reconciled record at its
      position, which comes from `in_app` or from the chosen renewal list. */
  lemma PurchaseDataSources(purchase: ResponseBody)
    requires purchase.receipt.Some?
    ensures var inApp := purchase.receipt.value.in_app.GetOr([]);
      var renewals := if purchase.latest_receipt_info.Some? then purchase.latest_receipt_info.value
                      else purchase.receipt.value.latest_receipt_info.GetOr([]);
      var items, rec := PurchaseData(Some(purchase)), Reconciled(purchase);
      && |items| == |rec|
      && forall i :: 0 <= i < |items| ==>
           items[i] == GetPurchaseItem(rec[i], purchase) && (rec[i] in inApp || rec[i] in renewals)
  {
    ReconciledSources(purchase);
  }

  /** Records of a single lineage with pairwise distinct lineages: at most one. */
  lemma AtMostOneOfALineage(s: seq<InAppRecord>, id: string)
    requires forall i :: 0 <= i < |s| ==> s[i].original_transaction_id == id
    requires forall i, j :: 0 <= i < j < |s| ==> s[i].original_transaction_id != s[j].original_transaction_id
    ensures |s| <= 1
  {
    if |s| > 1 {
      TwoOfALineage(s, id);
      assert false;
    }
  }

  lemma TwoOfALineage(s: seq<InAppRecord>, id: string)
    requires |s| > 1
    requires forall i :: 0 <= i < |s| ==> s[i].original_transaction_id == id
    ensures s[0].original_transaction_id == s[1].original_transaction_id
  {
  }

  /** A receipt whose records all belong to one subscription yields a single
      item, carrying the most recent purchase time of that subscription. */
  lemma SingleLineageYieldsOneItem(purchase: ResponseBody, id: string)
    requires purchase.receipt.Some? && AllDated(MergedPurchases(purchase))
    requires |MergedPurchases(purchase)| > 0
    requires forall r :: r in MergedPurchases(purchase) ==> r.original_transaction_id == id
    ensures var items, m := PurchaseData(Some(purchase)), MergedPurchases(purchase);
      && |items| == 1 && items[0].originalTransactionId == id
      && items[0].purchaseDateMS.Int?
      && (forall r :: r in m ==> PurchaseTime(r) <= items[0].purchaseDateMS.value)
      && (exists r :: r in m && PurchaseTime(r) == items[0].purchaseDateMS.value)
  {
    var m, rec := MergedPurchases(purchase), Reconciled(purchase);
    ReconciledIsLatestPerLineage(purchase);
    assert m[0] in m && m[0].original_transaction_id == id;
    assert id in LineageIds(m);
    assert id in LineageIds(rec);
    var r :| r in rec && r.original_transaction_id == id;
    forall i | 0 <= i < |rec| ensures rec[i].original_transaction_id == id {
      assert rec[i] in m;
    }
    AtMostOneOfALineage(rec, id);
    var n :| 0 <= n < |m| && m[n] == rec[0];
    assert PurchaseData(Some(purchase))[0].purchaseDateMS == Int(PurchaseTime(rec[0]));
  }

  /** The shifting loop of one insertion step: the records before `i` that
      are less recent than `x` move one place right, and `j` is the gap
      left for `x`. */
  method ShiftLessRecent(a: array<InAppRecord>, i: nat, x: InAppRecord, key: Key) returns (j: nat)
    requires i < a.Length
    modifies a
    ensures j <= i
    ensures forall m :: 0 <= m < j ==> a[m] == old(a[m])
    ensures forall m :: j < m <= i ==> a[m] == old(a[m - 1])
    ensures forall m :: i < m < a.Length ==> a[m] == old(a[m])
    ensures forall m :: j <= m < i ==> key(old(a[m])) < key(x)
    ensures j == 0 || key(old(a[j - 1])) >= key(x)
  {
    j := i;
    while j > 0 && key(a[j - 1]) < key(x)
      invariant j <= i
      invariant forall m :: 0 <= m < j ==> a[m] == old(a[m])
      invariant forall m :: j < m <= i ==> a[m] == old(a[m - 1])
      invariant forall m :: i < m < a.Length ==> a[m] == old(a[m])
      invariant forall m :: j <= m < i ==> key(old(a[m])) < key(x)
    {
      a[j] := a[j - 1];
      j := j - 1;
    }
  }

  /** One insertion step: `a[i]` moves left past the records less recent
      than itself, which shift one place right. */
  method InsertLast(a: array<InAppRecord>, i: nat, key: Key)
    requires i < a.Length
    modifies a
    ensures a[..i + 1] == Insert(old(a[..i]), old(a[i]), key)
    ensures a[i + 1..] == old(a[i + 1..])
  {
    var x := a[i];
    ghost var t := a[..i];
    ghost var rest := a[i + 1..];
    var j := ShiftLessRecent(a, i, x, key);
    assert forall m :: 0 <= m < i ==> t[m] == old(a[m]);
    a[j] := x;
    InsertAt(t, x, j, key);
    ghost var u := t[..j] + [x] + t[j..];
    assert |u| == i + 1;
    forall m | 0 <= m <= i ensures a[m] == u[m] {
      if m < j {
        assert u[m] == t[m];
      } else if j < m {
        assert u[m] == t[m - 1];
      }
    }
    assert a[..i + 1] == u;
    forall m | 0 <= m < |rest| ensures a[i + 1..][m] == rest[m] {
      assert rest[m] == old(a[i + 1 + m]);
    }
    assert a[i + 1..] == rest;
  }

  /** `purchases.sort(...)`: a stable in-place sort, most recent first
      by `key` (an insertion sort here); `GetPurchaseData` sorts by
      `PurchaseTime`. */
  method SortByPurchaseDateDesc(a: array<InAppRecord>, key: Key)
    modifies a
    ensures a[..] == SortDesc(old(a[..]), key)
  {
    ghost var input := a[..];
    var i := 0;
    while i < a.Length
      invariant 0 <= i <= a.Length
      invariant a[..i] == SortDesc(input[..i], key)
      invariant a[i..] == input[i..]
    {
      ghost var pre := input[..i + 1];
      assert pre[..i] == input[..i] && pre[i] == input[i];
      assert a[i] == input[i] by { assert a[i..][0] == input[i..][0]; }
      InsertLast(a, i, key);
      assert a[..i + 1] == SortDesc(pre, key);
      assert a[i + 1..] == input[i + 1..] by {
        assert input[i + 1..] == input[i..][1..];
      }
      i := i + 1;
    }
    assert input[..a.Length] == input;
  }

  /** One step of the keep-first walk: a record is kept exactly when its
      lineage has not been seen. */
  lemma {:induction false} KeepFirstStep(s: seq<InAppRecord>, x: InAppRecord)
    ensures LineageIds(s + [x]) == LineageIds(s) + {x.original_transaction_id}
    ensures FirstPerLineage(s + [x])
         == if x.original_transaction_id in LineageIds(s) then FirstPerLineage(s) else FirstPerLineage(s) + [x]
  {
    var t := s + [x];
    assert t[..|t| - 1] == s && t[|t| - 1] == x;
    LineageIdsConcat(s, [x]);
    assert LineageIds([x]) == {x.original_transaction_id};
  }

  lemma ItemsSnoc(d: seq<InAppRecord>, x: InAppRecord, body: ResponseBody)
    requires body.receipt.Some?
    ensures Items(d + [x], body) == Items(d, body) + [GetPurchaseItem(x, body)]
  {
  }

  /** The `transactionIds` dictionary marks exactly the lineages seen so
      far, each with `true`. */
  predicate MarksExactly(transactionIds: map<string, bool>, seen: seq<InAppRecord>) {
    && transactionIds.Keys == LineageIds(seen)
    && forall tid :: tid in transactionIds ==> transactionIds[tid]
  }

  /** Testing and marking one record's lineage keeps the dictionary exact. */
  lemma MarkStep(transactionIds: map<string, bool>, seen: seq<InAppRecord>, x: InAppRecord)
    requires MarksExactly(transactionIds, seen)
    ensures var tid := x.original_transaction_id;
      && ((tid in transactionIds && transactionIds[tid]) <==> tid in LineageIds(seen))
      && (tid in LineageIds(seen) ==> MarksExactly(transactionIds, seen + [x]))
      && (tid !in LineageIds(seen) ==> MarksExactly(transactionIds[tid := true], seen + [x]))
  {
    var tid, ids := x.original_transaction_id, LineageIds(seen);
    assert LineageIds(seen + [x]) == ids + {tid} by {
      LineageIdsConcat(seen, [x]);
      assert LineageIds([x]) == {tid};
    }
    if tid in ids {
      assert ids + {tid} == ids;
    } else {
      assert transactionIds[tid := true].Keys == ids + {tid};
    }
  }

  /** The walk of `getPurchaseData` over the sorted records: a record is
      kept unless its original transaction id is already marked in
      `transactionIds`. */
  method KeepFirstPerLineage(purchases: array<InAppRecord>, body: ResponseBody) returns (data: seq<PurchasedItem>)
    requires body.receipt.Some?
    ensures data == Items(FirstPerLineage(purchases[..]), body)
  {
    ghost var all := purchases[..];
    data := [];
    ghost var kept: seq<InAppRecord> := [];
    var transactionIds: map<string, bool> := map[];
    for i := 0 to purchases.Length
      invariant MarksExactly(transactionIds, all[..i])
      invariant kept == FirstPerLineage(all[..i])
      invariant data == Items(kept, body)
    {
      var item := purchases[i];
      var tid := item.original_transaction_id;
      ghost var prefix := all[..i];
      assert all[..i + 1] == prefix + [item];
      KeepFirstStep(prefix, item);
      MarkStep(transactionIds, prefix, item);
      if !(tid in transactionIds && transactionIds[tid]) {
        ItemsSnoc(kept, item, body);
        data := data + [GetPurchaseItem(item, body)];
        kept := kept + [item];
        transactionIds := transactionIds[tid := true];
      }
    }
    assert all[..purchases.Length] == all;
  }

  /** Names every plain object `{}` inherits from `Object.prototype`;
      reading any of them from `transactionIds` gives a truthy value. */
  const ObjectPrototypeKeys: set<string> := {
    "constructor", "__defineGetter__", "__defineSetter__", "hasOwnProperty",
    "__lookupGetter__", "__lookupSetter__", "isPrototypeOf", "propertyIsEnumerable",
    "toString", "valueOf", "__proto__", "toLocaleString"
  }

  /** The keep-first walk as written: since `transactionIds` starts as `{}`,
      the test `transactionIds[tid]` also holds for an inherited name, and a
      record whose original transaction id is such a name is never kept. */
  function FirstPerLineageAsWritten(s: seq<InAppRecord>): (d: seq<InAppRecord>)
    ensures forall r :: r in d ==> r in s && r.original_transaction_id !in ObjectPrototypeKeys
    ensures LineageIds(d) == LineageIds(s) - ObjectPrototypeKeys
  {
    if s == [] then []
    else
      var init, last := s[..|s| - 1], s[|s| - 1];
      assert s == init + [last];
      LineageIdsConcat(init, [last]);
      var d := FirstPerLineageAsWritten(init);
      LineageIdsConcat(d, [last]);
      if last.original_transaction_id in LineageIds(init) || last.original_transaction_id in ObjectPrototypeKeys then d
      else d + [last]
  }

  /** A receipt with one record whose lineage is named "constructor": the
      walk as written returns nothing, although the lineage is present, while
      `FirstPerLineage` keeps it. */
  lemma AsWrittenDropsPrototypeNamedLineage(r: InAppRecord)
    requires r.original_transaction_id == "constructor"
    ensures FirstPerLineageAsWritten([r]) == []
    ensures LineageIds([r]) == {"constructor"} != LineageIds(FirstPerLineageAsWritten([r]))
    ensures FirstPerLineage([r]) == [r]
  {
    assert [r][..0] == [];
    assert r in [r];
  }

  /** Away from those names the walk as written and `FirstPerLineage`
      agree. */
  lemma {:induction false} AsWrittenAgreesOffPrototypeNames(s: seq<InAppRecord>)
    requires forall i :: 0 <= i < |s| ==> s[i].original_transaction_id !in ObjectPrototypeKeys
    ensures FirstPerLineageAsWritten(s) == FirstPerLineage(s)
  {
    if s != [] {
      AsWrittenAgreesOffPrototypeNames(s[..|s| - 1]);
    }
  }

  /** `getPurchaseData`: nothing without a response or receipt; otherwise
      the merged list is copied, sorted in place and walked once, keeping
      the first record of each original transaction id. */
  method GetPurchaseData(purchase: Option<ResponseBody>) returns (data: seq<PurchasedItem>)
    requires purchase.Some? && purchase.value.receipt.Some? ==> AllDated(MergedPurchases(purchase.value))
    ensures data == PurchaseData(purchase)
  {
    if purchase.None? || purchase.value.receipt.None? {
      return [];
    }
    var body := purchase.value;
    var merged := MergedPurchases(body);
    var purchases := new InAppRecord[|merged|](i requires 0 <= i < |merged| => merged[i]);
    assert purchases[..] == merged;
    SortByPurchaseDateDesc(purchases, PurchaseTime);
    data := KeepFirstPerLineage(purchases, body);
  }
}
