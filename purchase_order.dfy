/** The reference definitions behind purchase reconciliation: a stable
    sort by purchase time, most recent first, and the keep-first-per-lineage
    pass, with the facts that make their composition "the latest record of
    every lineage". */
module PurchaseOrder {
  import opened JsNumbers
  import opened ReceiptTypes

  /** A sort key on records; the reconciler uses the purchase time. The
      facts below hold for every key, so they are stated for any. */
  type Key = InAppRecord -> int

  /** Most recent first. */
  predicate SortedDesc(s: seq<InAppRecord>, key: Key) {
    forall i, j :: 0 <= i < j < |s| ==> key(s[i]) >= key(s[j])
  }

  /** Stable insertion into a list sorted most recent first: `x` goes after
      every record at least as recent as itself. */
  function Insert(t: seq<InAppRecord>, x: InAppRecord, key: Key): seq<InAppRecord> {
    if t == [] then [x]
    else if key(t[|t| - 1]) >= key(x) then t + [x]
    else Insert(t[..|t| - 1], x, key) + [t[|t| - 1]]
  }

  /** The stable sort by descending purchase time (what
      `purchases.sort((a, b) => parseInt(b.purchase_date_ms) - parseInt(a.purchase_date_ms))`
      gives, `Array.prototype.sort` being stable). */
  function SortDesc(s: seq<InAppRecord>, key: Key): seq<InAppRecord> {
    if s == [] then [] else Insert(SortDesc(s[..|s| - 1], key), s[|s| - 1], key)
  }

  /** The records with key `k`, in their order in `s`. */
  function WithKey(s: seq<InAppRecord>, k: int, key: Key): seq<InAppRecord> {
    if s == [] then []
    else (if key(s[0]) == k then [s[0]] else []) + WithKey(s[1..], k, key)
  }

  lemma {:induction false} WithKeyConcat(a: seq<InAppRecord>, b: seq<InAppRecord>, k: int, key: Key)
    ensures WithKey(a + b, k, key) == WithKey(a, k, key) + WithKey(b, k, key)
  {
    if a == [] {
      assert a + b == b;
    } else {
      var head := if key(a[0]) == k then [a[0]] else [];
      assert WithKey(a + b, k, key) == head + WithKey(a[1..] + b, k, key) by {
        assert (a + b)[0] == a[0];
        assert (a + b)[1..] == a[1..] + b;
      }
      WithKeyConcat(a[1..], b, k, key);
    }
  }

  lemma {:induction false} WithKeyMembers(s: seq<InAppRecord>, k: int, key: Key)
    ensures forall r :: r in WithKey(s, k, key) <==> r in s && key(r) == k
  {
    if s != [] {
      WithKeyMembers(s[1..], k, key);
      assert s == [s[0]] + s[1..];
    }
  }

  lemma {:induction false} InsertPermutes(t: seq<InAppRecord>, x: InAppRecord, key: Key)
    ensures multiset(Insert(t, x, key)) == multiset(t) + multiset{x}
  {
    if t != [] && key(t[|t| - 1]) < key(x) {
      var front, last := t[..|t| - 1], t[|t| - 1];
      assert t == front + [last];
      InsertPermutes(front, x, key);
      assert Insert(t, x, key) == Insert(front, x, key) + [last];
    }
  }

  /** Appending a record no more recent than every element keeps a list sorted. */
  lemma AppendSorted(u: seq<InAppRecord>, y: InAppRecord, key: Key)
    requires SortedDesc(u, key)
    requires forall i :: 0 <= i < |u| ==> key(u[i]) >= key(y)
    ensures SortedDesc(u + [y], key)
  {
    var v := u + [y];
    forall i, j | 0 <= i < j < |v| ensures key(v[i]) >= key(v[j]) {
      assert v[i] == u[i];
      if j < |u| {
        assert v[j] == u[j];
      }
    }
  }

  lemma {:induction false} InsertSorted(t: seq<InAppRecord>, x: InAppRecord, key: Key)
    requires SortedDesc(t, key)
    ensures SortedDesc(Insert(t, x, key), key)
  {
    if t == [] {
    } else if key(t[|t| - 1]) >= key(x) {
      AppendSorted(t, x, key);
    } else {
      var front, last := t[..|t| - 1], t[|t| - 1];
      assert SortedDesc(front, key);
      InsertSorted(front, x, key);
      InsertPermutes(front, x, key);
      var u := Insert(front, x, key);
      forall i | 0 <= i < |u| ensures key(u[i]) >= key(last) {
        assert u[i] in multiset(u);
        if u[i] != x {
          assert u[i] in multiset(front);
          var m :| 0 <= m < |front| && front[m] == u[i];
          assert t[m] == u[i];
        }
      }
      AppendSorted(u, last, key);
    }
  }

  /** Insertion keeps, for every purchase time, the order of the records
      with that time, and puts `x` after them. */
  lemma {:induction false} InsertStable(t: seq<InAppRecord>, x: InAppRecord, k: int, key: Key)
    ensures WithKey(Insert(t, x, key), k, key) == WithKey(t, k, key) + WithKey([x], k, key)
  {
    if t == [] {
    } else if key(t[|t| - 1]) >= key(x) {
      WithKeyConcat(t, [x], k, key);
    } else {
      var front, last := t[..|t| - 1], t[|t| - 1];
      assert t == front + [last];
      InsertStable(front, x, k, key);
      WithKeyConcat(Insert(front, x, key), [last], k, key);
      WithKeyConcat(front, [last], k, key);
    }
  }

  /** The sort yields a list ordered by non-increasing key... */
  lemma {:induction false} SortDescSorted(s: seq<InAppRecord>, key: Key)
    ensures SortedDesc(SortDesc(s, key), key)
  {
    if s != [] {
      var init := s[..|s| - 1];
      SortDescSorted(init, key);
      InsertSorted(SortDesc(init, key), s[|s| - 1], key);
    }
  }

  /** ... that is a permutation of its input. */
  lemma {:induction false} SortDescPermutes(s: seq<InAppRecord>, key: Key)
    ensures multiset(SortDesc(s, key)) == multiset(s)
  {
    if s != [] {
      var init, last := s[..|s| - 1], s[|s| - 1];
      SortDescPermutes(init, key);
      InsertPermutes(SortDesc(init, key), last, key);
      assert s == init + [last];
    }
  }

  /** The sort is stable: records with equal purchase times keep their
      relative order. */
  lemma {:induction false} SortDescStable(s: seq<InAppRecord>, k: int, key: Key)
    ensures WithKey(SortDesc(s, key), k, key) == WithKey(s, k, key)
  {
    if s != [] {
      var init, last := s[..|s| - 1], s[|s| - 1];
      SortDescStable(init, k, key);
      InsertStable(SortDesc(init, key), last, k, key);
      assert s == init + [last];
      WithKeyConcat(init, [last], k, key);
    }
  }

  /** `Insert` places `x` at the first position after the records at least
      as recent as `x`: this is where the in-place insertion loop stops. */
  lemma {:induction false} InsertAt(t: seq<InAppRecord>, x: InAppRecord, j: nat, key: Key)
    requires j <= |t|
    requires forall m :: j <= m < |t| ==> key(t[m]) < key(x)
    requires j == 0 || key(t[j - 1]) >= key(x)
    ensures Insert(t, x, key) == t[..j] + [x] + t[j..]
  {
    if j < |t| {
      var front, last := t[..|t| - 1], t[|t| - 1];
      assert key(last) < key(x);
      assert Insert(t, x, key) == Insert(front, x, key) + [last];
      assert forall m :: j <= m < |front| ==> front[m] == t[m];
      assert j == 0 || front[j - 1] == t[j - 1];
      InsertAt(front, x, j, key);
      assert front[..j] == t[..j];
      assert front[j..] + [last] == t[j..];
      assert Insert(t, x, key) == t[..j] + [x] + (front[j..] + [last]);
    } else {
      assert t[..j] == t;
      assert t[j..] == [];
    }
  }

  /** The lineages (original transaction ids) present in `s`. */
  function LineageIds(s: seq<InAppRecord>): set<string> {
    set r | r in s :: r.original_transaction_id
  }

  /** The first record of lineage `id` in `s`. */
  function First(s: seq<InAppRecord>, id: string): (r: InAppRecord)
    requires id in LineageIds(s)
    ensures r in s && r.original_transaction_id == id
  {
    if s[0].original_transaction_id == id then s[0]
    else
      assert forall r :: r in s && r != s[0] ==> r in s[1..];
      First(s[1..], id)
  }

  /** `First` finds the earliest record of the lineage: it sits at a
      position before which no record has lineage `id`. */
  lemma {:induction false} FirstIsEarliest(s: seq<InAppRecord>, id: string)
    requires id in LineageIds(s)
    ensures exists i :: 0 <= i < |s| && s[i] == First(s, id)
                        && forall j :: 0 <= j < i ==> s[j].original_transaction_id != id
  {
    if s[0].original_transaction_id != id {
      assert forall r :: r in s && r != s[0] ==> r in s[1..];
      FirstIsEarliest(s[1..], id);
      var k :| 0 <= k < |s| - 1 && s[1..][k] == First(s[1..], id)
               && forall j :: 0 <= j < k ==> s[1..][j].original_transaction_id != id;
      assert s[k + 1] == First(s, id);
      assert forall j :: 0 <= j < k + 1 ==> s[j].original_transaction_id != id;
    }
  }

  lemma LineageIdsConcat(a: seq<InAppRecord>, b: seq<InAppRecord>)
    ensures LineageIds(a + b) == LineageIds(a) + LineageIds(b)
  {
    assert forall r :: r in a + b <==> r in a || r in b;
  }

  /** Keep the first record of each lineage, in order: the loop of
      `getPurchaseData` with its `transactionIds` dictionary. */
  function FirstPerLineage(s: seq<InAppRecord>): (d: seq<InAppRecord>)
    ensures forall i :: 0 <= i < |d| ==> d[i] in s
    ensures LineageIds(d) == LineageIds(s)
    ensures forall i, j :: 0 <= i < j < |d| ==> d[i].original_transaction_id != d[j].original_transaction_id
  {
    if s == [] then []
    else
      var init, last := s[..|s| - 1], s[|s| - 1];
      assert s == init + [last];
      LineageIdsConcat(init, [last]);
      var d := FirstPerLineage(init);
      if last.original_transaction_id in LineageIds(init) then d
      else
        LineageIdsConcat(d, [last]);
        assert LineageIds([last]) == {last.original_transaction_id};
        d + [last]
  }

  lemma {:induction false} FirstOfPrefix(a: seq<InAppRecord>, b: seq<InAppRecord>, id: string)
    requires id in LineageIds(a)
    ensures id in LineageIds(a + b) && First(a + b, id) == First(a, id)
  {
    LineageIdsConcat(a, b);
    assert (a + b)[0] == a[0];
    if a[0].original_transaction_id != id {
      assert id in LineageIds(a[1..]) by {
        assert a == [a[0]] + a[1..];
        LineageIdsConcat([a[0]], a[1..]);
        assert LineageIds([a[0]]) == {a[0].original_transaction_id};
      }
      assert (a + b)[1..] == a[1..] + b;
      FirstOfPrefix(a[1..], b, id);
    }
  }

  lemma {:induction false} FirstAfterPrefix(a: seq<InAppRecord>, b: seq<InAppRecord>, id: string)
    requires id !in LineageIds(a) && id in LineageIds(b)
    ensures id in LineageIds(a + b) && First(a + b, id) == First(b, id)
  {
    LineageIdsConcat(a, b);
    if a == [] {
      assert a + b == b;
    } else {
      assert a[0] in a;
      assert (a + b)[0] == a[0];
      assert a == [a[0]] + a[1..];
      LineageIdsConcat([a[0]], a[1..]);
      assert (a + b)[1..] == a[1..] + b;
      FirstAfterPrefix(a[1..], b, id);
    }
  }

  /** Every record kept is the first of its lineage in the input. */
  lemma {:induction false} FirstPerLineageKeepsFirst(s: seq<InAppRecord>)
    ensures forall i :: 0 <= i < |FirstPerLineage(s)| ==>
      FirstPerLineage(s)[i].original_transaction_id in LineageIds(s) &&
      FirstPerLineage(s)[i] == First(s, FirstPerLineage(s)[i].original_transaction_id)
  {
    if s != [] {
      var init, last := s[..|s| - 1], s[|s| - 1];
      assert s == init + [last];
      FirstPerLineageKeepsFirst(init);
      var d0 := FirstPerLineage(init);
      forall i | 0 <= i < |d0|
        ensures d0[i].original_transaction_id in LineageIds(s)
        ensures d0[i] == First(s, d0[i].original_transaction_id)
      {
        FirstOfPrefix(init, [last], d0[i].original_transaction_id);
      }
      if last.original_transaction_id !in LineageIds(init) {
        assert last in [last];
        FirstAfterPrefix(init, [last], last.original_transaction_id);
      }
    }
  }

  /** Dropping records keeps a sorted list sorted. */
  lemma {:induction false} FirstPerLineageSorted(s: seq<InAppRecord>, key: Key)
    requires SortedDesc(s, key)
    ensures SortedDesc(FirstPerLineage(s), key)
  {
    if s != [] {
      var init, last := s[..|s| - 1], s[|s| - 1];
      FirstPerLineageSorted(init, key);
      var d0 := FirstPerLineage(init);
      forall i | 0 <= i < |d0| ensures key(d0[i]) >= key(last) {
        var m :| 0 <= m < |init| && init[m] == d0[i];
        assert s[m] == init[m];
      }
    }
  }

  /** In a sorted list the first record of a lineage is its most recent one. */
  lemma {:induction false} FirstIsLatest(s: seq<InAppRecord>, id: string, key: Key)
    requires SortedDesc(s, key) && id in LineageIds(s)
    ensures forall r :: r in s && r.original_transaction_id == id ==> key(r) <= key(First(s, id))
  {
    if s[0].original_transaction_id != id {
      assert forall r :: r in s && r != s[0] ==> r in s[1..];
      FirstIsLatest(s[1..], id, key);
    }
  }

  /** In a sorted list, the first record of a lineage whose greatest key is
      `k` is also its first record among the records with key `k`. */
  lemma {:induction false} FirstAmongLatest(s: seq<InAppRecord>, id: string, k: int, key: Key)
    requires SortedDesc(s, key) && id in LineageIds(s)
    requires forall r :: r in s && r.original_transaction_id == id ==> key(r) <= k
    requires k == key(First(s, id))
    ensures id in LineageIds(WithKey(s, k, key))
    ensures First(s, id) == First(WithKey(s, k, key), id)
  {
    var head, tail := s[0], s[1..];
    assert s == [head] + tail;
    WithKeyConcat([head], tail, k, key);
    var w := WithKey(tail, k, key);
    if head.original_transaction_id == id {
      assert WithKey(s, k, key) == [head] + w by {
        assert WithKey([head], k, key) == [head];
      }
      assert head in WithKey(s, k, key);
      assert WithKey(s, k, key)[0] == head;
    } else {
      assert id in LineageIds(tail) by {
        LineageIdsConcat([head], tail);
        assert LineageIds([head]) == {head.original_transaction_id};
      }
      assert First(s, id) == First(tail, id);
      assert forall r :: r in tail ==> r in s;
      assert SortedDesc(tail, key) by {
        forall i, j | 0 <= i < j < |tail| ensures key(tail[i]) >= key(tail[j]) {
          assert tail[i] == s[i + 1] && tail[j] == s[j + 1];
        }
      }
      FirstAmongLatest(tail, id, k, key);
      if key(head) == k {
        assert WithKey([head], k, key) == [head];
        assert LineageIds([head]) == {head.original_transaction_id};
        FirstAfterPrefix([head], w, id);
      } else {
        assert WithKey([head], k, key) == [];
        assert [] + w == w;
      }
    }
  }
}
