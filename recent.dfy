/** The recent-activity feed of one envelope (EnvelopeTransactions.swift): four capped
    fetches turned into signed items, merged, sorted newest first and cut to `limit`. */
module Recent {
  import opened Records
  import opened Seqs

  /** The four `type` tags of an activity item. */
  datatype ActivityKind = ExpenseItem | TransferOut | TransferIn | IncomeItem

  function KindTag(k: ActivityKind): (tag: string)
    ensures tag in {"expense", "transfer_out", "transfer_in", "income"}
  {
    match k
    case ExpenseItem => "expense"
    case TransferOut => "transfer_out"
    case TransferIn => "transfer_in"
    case IncomeItem => "income"
  }

  /** Distinct kinds carry distinct tags. */
  lemma KindTagInjective(j: ActivityKind, k: ActivityKind)
    requires KindTag(j) == KindTag(k)
    ensures j == k
  {
  }

  /** An item's identifier: the transaction's own id, or for an allocation a freshly made
      UUID (here named after the allocation's object identifier). */
  datatype ItemId = RecordId(transaction: TransactionId) | FreshFor(allocation: nat)

  /** `EnvelopeTransactionItem`. */
  datatype ActivityItem = ActivityItem(
    id: ItemId,
    date: Date,
    amount: real,
    kind: ActivityKind,
    note: Option<string>,
    envelopeName: Option<string>)

  /** The item kind a transaction fetch produces. */
  function KindOf(role: Role): ActivityKind {
    match role
    case Debited => ExpenseItem
    case TransferSource => TransferOut
    case TransferTarget => TransferIn
  }

  /** The item built from a transaction fetched in `role`: money leaving the envelope is
      negative; the name is the envelope itself for an expense and the other side of a transfer. */
  function TransactionItem(s: Store, t: Transaction, role: Role, env: Envelope): ActivityItem {
    match role
    case Debited => ActivityItem(RecordId(t.id), t.date, -AmountOr0(t.amount), ExpenseItem, t.note, Some(env.name))
    case TransferSource =>
      ActivityItem(RecordId(t.id), t.date, -AmountOr0(t.amount), TransferOut, t.note, NameOf(s, t.targetEnvelope))
    case TransferTarget =>
      ActivityItem(RecordId(t.id), t.date, AmountOr0(t.amount), TransferIn, t.note, NameOf(s, t.sourceEnvelope))
  }

  /** The item built from an allocation; date and note come from its parent transaction. */
  function AllocationItem(s: Store, a: Allocation, env: Envelope, now: Date): ActivityItem {
    ActivityItem(FreshFor(a.objectId), ParentDate(s, a, now), AmountOr0(a.amount), IncomeItem,
                 ParentNote(s, a), Some(env.name))
  }

  function TransactionItems(s: Store, ts: seq<Transaction>, role: Role, env: Envelope): (r: seq<ActivityItem>)
    ensures |r| == |ts|
    ensures forall i :: 0 <= i < |ts| ==> r[i] == TransactionItem(s, ts[i], role, env)
  {
    if |ts| == 0 then []
    else TransactionItems(s, ts[..|ts| - 1], role, env) + [TransactionItem(s, ts[|ts| - 1], role, env)]
  }

  function AllocationItems(s: Store, allocs: seq<Allocation>, env: Envelope, now: Date): (r: seq<ActivityItem>)
    ensures |r| == |allocs|
    ensures forall i :: 0 <= i < |allocs| ==> r[i] == AllocationItem(s, allocs[i], env, now)
  {
    if |allocs| == 0 then []
    else AllocationItems(s, allocs[..|allocs| - 1], env, now) + [AllocationItem(s, allocs[|allocs| - 1], env, now)]
  }

  /** Sort key putting later items first. */
  function ItemRecency(it: ActivityItem): int {
    -it.date
  }

  predicate NewestFirst(items: seq<ActivityItem>) {
    forall i, j :: 0 <= i < j < |items| ==> items[i].date >= items[j].date
  }

  /** A transaction fetch of the feed: the records in `role`, newest first, at most `limit`. */
  function NewestInRole(ts: seq<Transaction>, role: Role, e: EnvelopeId, limit: nat): (r: seq<Transaction>)
    ensures |r| == if limit == 0 || limit >= |TransactionsIn(ts, role, e)| then |TransactionsIn(ts, role, e)| else limit
    ensures multiset(r) <= multiset(TransactionsIn(ts, role, e))
    ensures forall i, j :: 0 <= i < j < |r| ==> r[i].date >= r[j].date
    ensures forall x, y :: x in r && y in multiset(TransactionsIn(ts, role, e)) - multiset(r) ==> y.date <= x.date
  {
    SortedFetch(TransactionsIn(ts, role, e), TransactionRecency, limit)
  }

  /** The allocation fetch: `2 * limit` of the envelope's allocations, or all of them when
      there are fewer. The request has no sort order, so which ones the store returns is not
      determined; the model takes them in store order. */
  function AllocationFetch(allocs: seq<Allocation>, e: EnvelopeId, limit: nat): (r: seq<Allocation>)
    ensures |r| == if limit == 0 || 2 * limit >= |AllocationsTo(allocs, e)| then |AllocationsTo(allocs, e)| else 2 * limit
    ensures |r| <= |AllocationsTo(allocs, e)| && r == AllocationsTo(allocs, e)[..|r|]
  {
    FetchLimit(AllocationsTo(allocs, e), 2 * limit)
  }

  /** Everything the four fetches gather, in the order they are appended. */
  function Gathered(s: Store, env: Envelope, limit: nat, now: Date): seq<ActivityItem> {
    TransactionItems(s, NewestInRole(s.transactions, Debited, env.id, limit), Debited, env)
    + TransactionItems(s, NewestInRole(s.transactions, TransferSource, env.id, limit), TransferSource, env)
    + TransactionItems(s, NewestInRole(s.transactions, TransferTarget, env.id, limit), TransferTarget, env)
    + AllocationItems(s, AllocationFetch(s.allocations, env.id, limit), env, now)
  }

  /** The item is built from a record that refers to `env` in the role its kind states. */
  predicate Traceable(s: Store, env: Envelope, now: Date, it: ActivityItem) {
    if it.kind == IncomeItem then
      exists a :: a in s.allocations && a.envelope == Some(env.id) && it == AllocationItem(s, a, env, now)
    else
      exists t, role :: t in s.transactions && Fills(t, role, env.id) && it == TransactionItem(s, t, role, env)
  }

  lemma {:induction false} FetchedInRole(s: Store, env: Envelope, limit: nat, role: Role, t: Transaction)
    requires t in NewestInRole(s.transactions, role, env.id, limit)
    ensures t in s.transactions && Fills(t, role, env.id)
  {
    assert t in multiset(TransactionsIn(s.transactions, role, env.id));
  }

  lemma {:induction false} TransactionItemsTraceable(s: Store, env: Envelope, limit: nat, now: Date, role: Role)
    ensures forall it :: it in TransactionItems(s, NewestInRole(s.transactions, role, env.id, limit), role, env)
                         ==> Traceable(s, env, now, it)
  {
    var ts := NewestInRole(s.transactions, role, env.id, limit);
    var items := TransactionItems(s, ts, role, env);
    forall it | it in items ensures Traceable(s, env, now, it) {
      var i :| 0 <= i < |items| && items[i] == it;
      FetchedInRole(s, env, limit, role, ts[i]);
    }
  }

  /** Every gathered item comes from a record that refers to this envelope in its item's role. */
  lemma {:induction false} GatheredTraceable(s: Store, env: Envelope, limit: nat, now: Date)
    ensures forall it :: it in Gathered(s, env, limit, now) ==> Traceable(s, env, now, it)
  {
    TransactionItemsTraceable(s, env, limit, now, Debited);
    TransactionItemsTraceable(s, env, limit, now, TransferSource);
    TransactionItemsTraceable(s, env, limit, now, TransferTarget);
    var allocs := AllocationFetch(s.allocations, env.id, limit);
    var items := AllocationItems(s, allocs, env, now);
    forall it | it in items ensures Traceable(s, env, now, it) {
      var i :| 0 <= i < |items| && items[i] == it;
      assert allocs[i] in AllocationsTo(s.allocations, env.id);
    }
  }

  /** `items.sort { $0.date > $1.date }` followed by `prefix(limit)`. */
  function NewestItems(g: seq<ActivityItem>, limit: nat): (r: seq<ActivityItem>)
    ensures |r| == (if limit < |g| then limit else |g|)
    ensures multiset(r) <= multiset(g)
    ensures NewestFirst(r)
    ensures forall x, y :: x in r && y in multiset(g) - multiset(r) ==> y.date <= x.date
  {
    var sorted := SortBy(g, ItemRecency);
    TakeSortedKeepsLeast(sorted, limit, ItemRecency);
    Take(sorted, limit)
  }

  /** `recentTransactionItems(in:limit:)`. The result holds `limit` of the gathered items
      (all of them when there are fewer), newest first, and none left out is newer than
      one kept; each one comes from a record that refers to `env` in its item's role. */
  method RecentTransactionItems(ctx: Context, env: Envelope, limit: nat, now: Date)
    returns (items: seq<ActivityItem>)
    ensures var g := Gathered(ctx.Snapshot(), env, limit, now);
      && |items| == (if limit < |g| then limit else |g|)
      && multiset(items) <= multiset(g)
      && NewestFirst(items)
      && (forall x, y :: x in items && y in multiset(g) - multiset(items) ==> y.date <= x.date)
    ensures forall it :: it in items ==> Traceable(ctx.Snapshot(), env, now, it)
  {
    var s := ctx.Snapshot();
    items := [];
    var expenses := NewestInRole(ctx.transactions, Debited, env.id, limit);
    items := AppendTransactionItems(s, items, expenses, Debited, env);
    assert items == TransactionItems(s, expenses, Debited, env);
    var out := NewestInRole(ctx.transactions, TransferSource, env.id, limit);
    items := AppendTransactionItems(s, items, out, TransferSource, env);
    var incoming := NewestInRole(ctx.transactions, TransferTarget, env.id, limit);
    items := AppendTransactionItems(s, items, incoming, TransferTarget, env);
    var allocs := AllocationFetch(ctx.allocations, env.id, limit);
    items := AppendAllocationItems(s, items, allocs, env, now);
    var g := items;
    assert g == Gathered(s, env, limit, now);
    items := NewestItems(g, limit);
    GatheredTraceable(s, env, limit, now);
    forall it | it in items ensures Traceable(s, env, now, it) {
      assert it in multiset(items);
      assert it in multiset(g);
      assert it in g;
    }
  }

  /** One fetch loop of the feed: an item per fetched transaction, appended in fetch order. */
  method AppendTransactionItems(s: Store, items: seq<ActivityItem>, list: seq<Transaction>, role: Role, env: Envelope)
    returns (r: seq<ActivityItem>)
    ensures r == items + TransactionItems(s, list, role, env)
  {
    r := items;
    for i := 0 to |list|
      invariant r == items + TransactionItems(s, list[..i], role, env)
    {
      assert list[..i + 1][..i] == list[..i];
      r := r + [TransactionItem(s, list[i], role, env)];
    }
    assert list[..|list|] == list;
  }

  /** The allocation loop of the feed: an item per fetched allocation, appended in fetch order. */
  method AppendAllocationItems(s: Store, items: seq<ActivityItem>, allocs: seq<Allocation>, env: Envelope, now: Date)
    returns (r: seq<ActivityItem>)
    ensures r == items + AllocationItems(s, allocs, env, now)
  {
    r := items;
    for i := 0 to |allocs|
      invariant r == items + AllocationItems(s, allocs[..i], env, now)
    {
      assert allocs[..i + 1][..i] == allocs[..i];
      r := r + [AllocationItem(s, allocs[i], env, now)];
    }
    assert allocs[..|allocs|] == allocs;
  }

  /** With amounts of zero or more, money leaving the envelope is never positive in the feed
      and money arriving is never negative. */
  lemma TraceableSign(s: Store, env: Envelope, now: Date, it: ActivityItem)
    requires Traceable(s, env, now, it)
    requires forall t :: t in s.transactions ==> AmountOr0(t.amount) >= 0.0
    requires forall a :: a in s.allocations ==> AmountOr0(a.amount) >= 0.0
    ensures it.kind == ExpenseItem || it.kind == TransferOut ==> it.amount <= 0.0
    ensures it.kind == TransferIn || it.kind == IncomeItem ==> it.amount >= 0.0
  {
  }

  /** Expense and income items name this envelope; a transfer names the envelope on its other side. */
  lemma TraceableName(s: Store, env: Envelope, now: Date, it: ActivityItem)
    requires Traceable(s, env, now, it)
    ensures it.kind == ExpenseItem || it.kind == IncomeItem ==> it.envelopeName == Some(env.name)
    ensures it.kind == TransferOut ==>
      exists t :: t in s.transactions && t.sourceEnvelope == Some(env.id) && it.envelopeName == NameOf(s, t.targetEnvelope)
    ensures it.kind == TransferIn ==>
      exists t :: t in s.transactions && t.targetEnvelope == Some(env.id) && it.envelopeName == NameOf(s, t.sourceEnvelope)
  {
  }
}
