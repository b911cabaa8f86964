/** The history list's query (HistoryFetch.swift): allocations and expense/transfer
    transactions, narrowed by kind, by envelope and by a case-blind search, newest first. */
module HistoryFetch {
  import opened Records
  import opened Seqs
  import opened Text
  import opened History

  /** `HistoryFilter`: which kinds of record the list shows. */
  datatype HistoryFilter = All | Income | Expenses

  /** `o?.localizedCaseInsensitiveContains(q) ?? false`. */
  predicate Mentions(o: Option<string>, q: string) {
    o.Some? && ContainsIgnoringCase(o.value, q)
  }

  /** The search test of an allocation: its envelope's name or its parent's note. */
  predicate AllocationMatches(s: Store, a: Allocation, q: string) {
    |q| == 0 || Mentions(NameOf(s, a.envelope), q) || Mentions(ParentNote(s, a), q)
  }

  /** The search test of a transaction: any of its three envelopes' names, or its note. */
  predicate TransactionMatches(s: Store, t: Transaction, q: string) {
    |q| == 0
    || Mentions(NameOf(s, t.envelope), q)
    || Mentions(NameOf(s, t.sourceEnvelope), q)
    || Mentions(NameOf(s, t.targetEnvelope), q)
    || Mentions(t.note, q)
  }

  /** The allocation fetch: every allocation, or those of the envelope in scope. */
  function AllocationFetch(s: Store, scope: Option<EnvelopeId>): seq<Allocation> {
    if scope.None? then s.allocations else AllocationsTo(s.allocations, scope.value)
  }

  predicate InAllocationScope(a: Allocation, scope: Option<EnvelopeId>) {
    scope.None? || a.envelope == scope
  }

  /** The compound fetch predicate: an expense or a transfer, and, with an envelope in
      scope, one that names it as envelope, source or target. */
  predicate InTransactionScope(t: Transaction, scope: Option<EnvelopeId>) {
    (t.kind == ExpenseKind || t.kind == TransferKind)
    && (scope.None? || t.envelope == scope || t.sourceEnvelope == scope || t.targetEnvelope == scope)
  }

  function ScopedTransactions(ts: seq<Transaction>, scope: Option<EnvelopeId>): seq<Transaction> {
    if |ts| == 0 then []
    else
      var last := ts[|ts| - 1];
      ScopedTransactions(ts[..|ts| - 1], scope) + (if InTransactionScope(last, scope) then [last] else [])
  }

  /** The transaction fetch, sorted by date descending. */
  function TransactionFetch(s: Store, scope: Option<EnvelopeId>): seq<Transaction> {
    SortBy(ScopedTransactions(s.transactions, scope), TransactionRecency)
  }

  /** Every transaction the fetch returns is an expense or else a transfer. */
  function AsHistoryItem(t: Transaction): HistoryItem {
    if t.kind == ExpenseKind then Expense(t) else Transfer(t)
  }

  /** The allocation loop: an item for each allocation passing the search, in fetch order. */
  function AllocationItemsMatching(s: Store, allocs: seq<Allocation>, q: string): seq<HistoryItem> {
    if |allocs| == 0 then []
    else
      var last := allocs[|allocs| - 1];
      AllocationItemsMatching(s, allocs[..|allocs| - 1], q)
      + (if AllocationMatches(s, last, q) then [IncomeAllocation(last)] else [])
  }

  /** The transaction loop: an item for each transaction passing the search, in fetch order. */
  function TransactionItemsMatching(s: Store, ts: seq<Transaction>, q: string): seq<HistoryItem> {
    if |ts| == 0 then []
    else
      var last := ts[|ts| - 1];
      TransactionItemsMatching(s, ts[..|ts| - 1], q)
      + (if TransactionMatches(s, last, q) then [AsHistoryItem(last)] else [])
  }

  /** What the two loops gather before the final sort. An envelope identifier that does not
      resolve to an envelope leaves the list unscoped. */
  function Gathered(s: Store, filter: HistoryFilter, envelopeID: Option<EnvelopeId>, q: string): seq<HistoryItem> {
    var scope := Resolve(s.envelopes, envelopeID);
    (if filter != Expenses then AllocationItemsMatching(s, AllocationFetch(s, scope), q) else [])
    + (if filter != Income then TransactionItemsMatching(s, TransactionFetch(s, scope), q) else [])
  }

  predicate NewestFirst(s: Store, now: Records.Date, items: seq<HistoryItem>) {
    forall i, j :: 0 <= i < j < |items| ==> History.Date(s, items[i], now) >= History.Date(s, items[j], now)
  }

  /** `items.sort { $0.date > $1.date }`. */
  function SortHistory(s: Store, now: Records.Date, items: seq<HistoryItem>): (r: seq<HistoryItem>)
    ensures multiset(r) == multiset(items)
    ensures NewestFirst(s, now, r)
  {
    SortBy(items, h => -History.Date(s, h, now))
  }

  /** One more fetched allocation adds its item when it passes the search. */
  lemma AllocationItemsStep(s: Store, allocs: seq<Allocation>, i: nat, q: string)
    requires i < |allocs|
    ensures AllocationItemsMatching(s, allocs[..i + 1], q)
         == AllocationItemsMatching(s, allocs[..i], q)
          + (if AllocationMatches(s, allocs[i], q) then [IncomeAllocation(allocs[i])] else [])
  {
    assert allocs[..i + 1][..i] == allocs[..i];
  }

  /** One more fetched transaction adds its item when it passes the search. */
  lemma TransactionItemsStep(s: Store, list: seq<Transaction>, i: nat, q: string)
    requires i < |list|
    ensures TransactionItemsMatching(s, list[..i + 1], q)
         == TransactionItemsMatching(s, list[..i], q)
          + (if TransactionMatches(s, list[i], q) then [AsHistoryItem(list[i])] else [])
  {
    assert list[..i + 1][..i] == list[..i];
  }

  /** `HistoryFetch.items(in:filter:envelopeID:searchText:)`: the gathered items, newest first. */
  method Items(ctx: Context, filter: HistoryFilter, envelopeID: Option<EnvelopeId>, q: string, now: Records.Date)
    returns (items: seq<HistoryItem>)
    ensures multiset(items) == multiset(Gathered(ctx.Snapshot(), filter, envelopeID, q))
    ensures NewestFirst(ctx.Snapshot(), now, items)
  {
    var s := ctx.Snapshot();
    items := [];
    var scope := Resolve(ctx.envelopes, envelopeID);
    if filter != Expenses {
      var allocs := AllocationFetch(s, scope);
      for i := 0 to |allocs|
        invariant items == AllocationItemsMatching(s, allocs[..i], q)
      {
        AllocationItemsStep(s, allocs, i, q);
        if AllocationMatches(s, allocs[i], q) {
          items := items + [IncomeAllocation(allocs[i])];
        }
      }
      assert allocs[..|allocs|] == allocs;
    }
    if filter != Income {
      var list := TransactionFetch(s, scope);
      var prefix := items;
      for i := 0 to |list|
        invariant items == prefix + TransactionItemsMatching(s, list[..i], q)
      {
        var added := if TransactionMatches(s, list[i], q) then [AsHistoryItem(list[i])] else [];
        TransactionItemsStep(s, list, i, q);
        AppendAssoc(prefix, TransactionItemsMatching(s, list[..i], q), added);
        if TransactionMatches(s, list[i], q) {
          if list[i].kind == ExpenseKind {
            items := items + [Expense(list[i])];
          } else {
            items := items + [Transfer(list[i])];
          }
        }
      }
      assert list[..|list|] == list;
    }
    items := SortHistory(s, now, items);
  }

  // ---------------------------------------------------------------------------
  // How often each record appears

  lemma {:induction false} AllocationsToCount(allocs: seq<Allocation>, e: EnvelopeId, a: Allocation)
    ensures multiset(AllocationsTo(allocs, e))[a] == if a.envelope == Some(e) then multiset(allocs)[a] else 0
  {
    if |allocs| > 0 {
      var init := allocs[..|allocs| - 1];
      assert allocs == init + [allocs[|allocs| - 1]];
      AllocationsToCount(init, e, a);
    }
  }

  lemma {:induction false} ScopedTransactionsCount(ts: seq<Transaction>, scope: Option<EnvelopeId>, t: Transaction)
    ensures multiset(ScopedTransactions(ts, scope))[t] == if InTransactionScope(t, scope) then multiset(ts)[t] else 0
  {
    if |ts| > 0 {
      var init := ts[..|ts| - 1];
      assert ts == init + [ts[|ts| - 1]];
      ScopedTransactionsCount(init, scope, t);
    }
  }

  lemma {:induction false} AllocationItemsCount(s: Store, allocs: seq<Allocation>, q: string, h: HistoryItem)
    ensures multiset(AllocationItemsMatching(s, allocs, q))[h]
         == if h.IncomeAllocation? && AllocationMatches(s, h.a, q) then multiset(allocs)[h.a] else 0
  {
    if |allocs| > 0 {
      var init := allocs[..|allocs| - 1];
      assert allocs == init + [allocs[|allocs| - 1]];
      AllocationItemsCount(s, init, q, h);
    }
  }

  lemma {:induction false} TransactionItemsCount(s: Store, ts: seq<Transaction>, q: string, h: HistoryItem)
    requires forall t :: t in ts ==> t.kind == ExpenseKind || t.kind == TransferKind
    ensures multiset(TransactionItemsMatching(s, ts, q))[h]
         == if h.Expense? && h.t.kind == ExpenseKind && TransactionMatches(s, h.t, q) then multiset(ts)[h.t]
            else if h.Transfer? && h.t.kind == TransferKind && TransactionMatches(s, h.t, q) then multiset(ts)[h.t]
            else 0
  {
    if |ts| > 0 {
      var init := ts[..|ts| - 1];
      var last := ts[|ts| - 1];
      assert ts == init + [last];
      assert last in ts;
      TransactionItemsCount(s, init, q, h);
    }
  }

  lemma {:induction false} FetchedKinds(s: Store, scope: Option<EnvelopeId>)
    ensures forall t :: t in TransactionFetch(s, scope) ==> t.kind == ExpenseKind || t.kind == TransferKind
  {
    forall t | t in TransactionFetch(s, scope) ensures t.kind == ExpenseKind || t.kind == TransferKind {
      assert t in multiset(TransactionFetch(s, scope));
      ScopedTransactionsCount(s.transactions, scope, t);
    }
  }

  /** Each allocation appears exactly as often as it is stored when the filter admits income,
      it lies in the envelope scope and it passes the search; otherwise never. */
  lemma AllocationAppearance(s: Store, filter: HistoryFilter, envelopeID: Option<EnvelopeId>, q: string, a: Allocation)
    ensures multiset(Gathered(s, filter, envelopeID, q))[IncomeAllocation(a)]
         == if filter != Expenses && InAllocationScope(a, Resolve(s.envelopes, envelopeID)) && AllocationMatches(s, a, q)
            then multiset(s.allocations)[a] else 0
  {
    var scope := Resolve(s.envelopes, envelopeID);
    var h := IncomeAllocation(a);
    AllocationItemsCount(s, AllocationFetch(s, scope), q, h);
    FetchedKinds(s, scope);
    TransactionItemsCount(s, TransactionFetch(s, scope), q, h);
    if scope.Some? {
      AllocationsToCount(s.allocations, scope.value, a);
    }
  }

  /** Each expense appears exactly as often as it is stored when the filter admits spending,
      it lies in the envelope scope and it passes the search; otherwise never. */
  lemma ExpenseAppearance(s: Store, filter: HistoryFilter, envelopeID: Option<EnvelopeId>, q: string, t: Transaction)
    ensures multiset(Gathered(s, filter, envelopeID, q))[Expense(t)]
         == if filter != Income && t.kind == ExpenseKind && InTransactionScope(t, Resolve(s.envelopes, envelopeID))
               && TransactionMatches(s, t, q)
            then multiset(s.transactions)[t] else 0
  {
    var scope := Resolve(s.envelopes, envelopeID);
    var h := Expense(t);
    AllocationItemsCount(s, AllocationFetch(s, scope), q, h);
    FetchedKinds(s, scope);
    TransactionItemsCount(s, TransactionFetch(s, scope), q, h);
    ScopedTransactionsCount(s.transactions, scope, t);
  }

  /** Each transfer appears exactly as often as it is stored when the filter admits spending,
      it lies in the envelope scope and it passes the search; otherwise never. An "income"
      transaction never appears in either form. */
  lemma TransferAppearance(s: Store, filter: HistoryFilter, envelopeID: Option<EnvelopeId>, q: string, t: Transaction)
    ensures multiset(Gathered(s, filter, envelopeID, q))[Transfer(t)]
         == if filter != Income && t.kind == TransferKind && InTransactionScope(t, Resolve(s.envelopes, envelopeID))
               && TransactionMatches(s, t, q)
            then multiset(s.transactions)[t] else 0
  {
    var scope := Resolve(s.envelopes, envelopeID);
    var h := Transfer(t);
    AllocationItemsCount(s, AllocationFetch(s, scope), q, h);
    FetchedKinds(s, scope);
    TransactionItemsCount(s, TransactionFetch(s, scope), q, h);
    ScopedTransactionsCount(s.transactions, scope, t);
  }

  /** "All" shows what "Income" shows followed by what "Expenses" shows. */
  lemma AllIsIncomeThenExpenses(s: Store, envelopeID: Option<EnvelopeId>, q: string)
    ensures Gathered(s, All, envelopeID, q) == Gathered(s, Income, envelopeID, q) + Gathered(s, Expenses, envelopeID, q)
  {
    var scope := Resolve(s.envelopes, envelopeID);
    var allocs := AllocationItemsMatching(s, AllocationFetch(s, scope), q);
    var ts := TransactionItemsMatching(s, TransactionFetch(s, scope), q);
    assert Gathered(s, Income, envelopeID, q) == allocs + [];
    assert Gathered(s, Expenses, envelopeID, q) == [] + ts;
  }

  /** "Income" shows nothing but allocations. */
  lemma {:induction false} IncomeShowsOnlyAllocations(s: Store, envelopeID: Option<EnvelopeId>, q: string)
    ensures forall h :: h in Gathered(s, Income, envelopeID, q) ==> h.IncomeAllocation?
  {
    var scope := Resolve(s.envelopes, envelopeID);
    var allocs := AllocationItemsMatching(s, AllocationFetch(s, scope), q);
    assert Gathered(s, Income, envelopeID, q) == allocs + [];
    forall h | h in allocs ensures h.IncomeAllocation? {
      assert h in multiset(allocs);
      AllocationItemsCount(s, AllocationFetch(s, scope), q, h);
    }
  }

  /** "Expenses" shows no allocation. */
  lemma {:induction false} ExpensesShowNoAllocations(s: Store, envelopeID: Option<EnvelopeId>, q: string)
    ensures forall h :: h in Gathered(s, Expenses, envelopeID, q) ==> !h.IncomeAllocation?
  {
    var scope := Resolve(s.envelopes, envelopeID);
    var ts := TransactionItemsMatching(s, TransactionFetch(s, scope), q);
    assert Gathered(s, Expenses, envelopeID, q) == [] + ts;
    FetchedKinds(s, scope);
    forall h | h in ts ensures !h.IncomeAllocation? {
      assert h in multiset(ts);
      TransactionItemsCount(s, TransactionFetch(s, scope), q, h);
    }
  }

  /** An empty search keeps every record the fetches return. */
  lemma {:induction false} EmptySearchKeepsAll(s: Store, filter: HistoryFilter, envelopeID: Option<EnvelopeId>)
    ensures var scope := Resolve(s.envelopes, envelopeID);
      |Gathered(s, filter, envelopeID, "")|
      == (if filter != Expenses then |AllocationFetch(s, scope)| else 0)
       + (if filter != Income then |ScopedTransactions(s.transactions, scope)| else 0)
  {
    var scope := Resolve(s.envelopes, envelopeID);
    AllocationItemsKeepAll(s, AllocationFetch(s, scope));
    TransactionItemsKeepAll(s, TransactionFetch(s, scope));
  }

  lemma {:induction false} AllocationItemsKeepAll(s: Store, allocs: seq<Allocation>)
    ensures |AllocationItemsMatching(s, allocs, "")| == |allocs|
  {
    if |allocs| > 0 {
      AllocationItemsKeepAll(s, allocs[..|allocs| - 1]);
    }
  }

  lemma {:induction false} TransactionItemsKeepAll(s: Store, ts: seq<Transaction>)
    ensures |TransactionItemsMatching(s, ts, "")| == |ts|
  {
    if |ts| > 0 {
      TransactionItemsKeepAll(s, ts[..|ts| - 1]);
    }
  }

  /** An envelope identifier that names no envelope filters nothing. */
  lemma UnresolvedEnvelopeIgnored(s: Store, filter: HistoryFilter, envelopeID: Option<EnvelopeId>, q: string)
    requires envelopeID.Some? && !HasEnvelope(s.envelopes, envelopeID.value)
    ensures Gathered(s, filter, envelopeID, q) == Gathered(s, filter, None, q)
  {
  }
}
